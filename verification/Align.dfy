/**
Rounding up to a power of two (boot/x86-boot-common/src/lib.rs:155-157): add `align - 1`,
then clear the low bits.
*/
module Align {
  import opened Bits

  /** The least multiple of `align` not below `value`. */
  function AlignUp(value: nat, align: nat): (r: nat)
    requires align > 0
    ensures r >= value && r % align == 0 && forall x: nat :: x >= value && x % align == 0 ==> r <= x
  {
    AlignUpIsLeast(value, align);
    (value + align - 1) / align * align
  }

  lemma DivMod(x: nat, d: nat)
    requires d > 0
    ensures x == x / d * d + x % d && 0 <= x % d < d
  {
  }

  lemma MulMono(a: nat, b: nat, c: nat)
    requires a <= b
    ensures a * c <= b * c
  {
  }

  lemma MulMod(q: nat, d: nat)
    requires d > 0
    ensures q * d % d == 0
  {
    DivMod(q * d, d);
    var p := q * d / d;
    assert p * d + d == (p + 1) * d;
    assert q * d + d == (q + 1) * d;
    if p < q {
      MulMono(p + 1, q, d);
    } else if p > q {
      MulMono(q + 1, p, d);
    }
  }

  lemma AlignUpIsLeast(value: nat, align: nat)
    requires align > 0
    ensures var r := (value + align - 1) / align * align;
            r >= value && r % align == 0 && forall x: nat :: x >= value && x % align == 0 ==> r <= x
  {
    var q := (value + align - 1) / align;
    DivMod(value + align - 1, align);
    MulMod(q, align);
    forall x: nat | x >= value && x % align == 0 ensures q * align <= x {
      DivMod(x, align);
      NotBelow(x / align, q, align, value);
    }
  }

  lemma NotBelow(p: nat, q: nat, d: nat, value: nat)
    requires d > 0 && p * d >= value && q * d < value + d
    ensures q * d <= p * d
  {
    assert (p + 1) * d == p * d + d;
    if p < q {
      MulMono(p + 1, q, d);
    } else {
      MulMono(q, p, d);
    }
  }

  /** Masking with `2^k - 1` is the remainder by `2^k`. */
  lemma {:induction false} LowBits(k: nat, x: nat)
    ensures BitAnd(Pow2(k) - 1, x) == x % Pow2(k)
  {
    if k > 0 {
      var h := Pow2(k - 1);
      LowBits(k - 1, x / 2);
      DoubleMod(x, h);
      AndOdd(h - 1, x);
    }
  }

  lemma AndOdd(m: nat, x: nat)
    ensures BitAnd(2 * m + 1, x) == 2 * BitAnd(m, x / 2) + x % 2
  {
    assert (2 * m + 1) / 2 == m;
  }

  lemma DoubleMod(x: nat, h: nat)
    requires h > 0
    ensures x % (2 * h) == 2 * (x / 2 % h) + x % 2
  {
    DivMod(x / 2, h);
    var q, r := x / 2 / h, 2 * (x / 2 % h) + x % 2;
    assert q * (2 * h) == 2 * (q * h);
    Remainder(x, q, 2 * h, r);
  }

  lemma Remainder(x: nat, q: nat, d: nat, r: nat)
    requires r < d && x == q * d + r
    ensures x % d == r && x / d == q
  {
    DivMod(x, d);
    var p := x / d;
    assert p * d + d == (p + 1) * d;
    assert q * d + d == (q + 1) * d;
    if p < q {
      MulMono(p + 1, q, d);
    } else if p > q {
      MulMono(q + 1, p, d);
    }
  }

  /** The mask form the boot code computes is `AlignUp`. */
  lemma MaskIsAlignUp(value: nat, k: nat)
    ensures BitClear(value + Pow2(k) - 1, Pow2(k) - 1) == AlignUp(value, Pow2(k))
  {
    var x := value + Pow2(k) - 1;
    LowBits(k, x);
    DivMod(x, Pow2(k));
  }
}
