/** Bitwise operations on natural numbers, bit by bit, and what they mean arithmetically. */
module Bits {

  function BitOr(a: nat, b: nat): nat {
    if a == 0 && b == 0 then 0 else 2 * BitOr(a / 2, b / 2) + if a % 2 == 1 || b % 2 == 1 then 1 else 0
  }

  function BitAnd(a: nat, b: nat): nat {
    if a == 0 || b == 0 then 0 else 2 * BitAnd(a / 2, b / 2) + if a % 2 == 1 && b % 2 == 1 then 1 else 0
  }

  function Pow2(k: nat): (r: nat)
    ensures r > 0
  {
    if k == 0 then 1 else 2 * Pow2(k - 1)
  }

  lemma {:induction false} AndAtMost(a: nat, b: nat)
    ensures BitAnd(a, b) <= b
  {
    if a != 0 && b != 0 {
      AndAtMost(a / 2, b / 2);
    }
  }

  /** `a & !b` */
  function BitClear(a: nat, b: nat): nat {
    AndAtMost(b, a);
    a - BitAnd(b, a)
  }

  lemma {:induction false} OrDisjoint(a: nat, b: nat)
    requires BitAnd(a, b) == 0
    ensures BitOr(a, b) == a + b
  {
    if a != 0 || b != 0 {
      if a != 0 && b != 0 {
        assert BitAnd(a, b) == 2 * BitAnd(a / 2, b / 2) + if a % 2 == 1 && b % 2 == 1 then 1 else 0;
      }
      OrDisjoint(a / 2, b / 2);
    }
  }

  /** Removing a disjoint mask that was added leaves the rest. */
  lemma {:induction false} ClearAdded(a: nat, b: nat)
    requires BitAnd(a, b) == 0
    ensures BitAnd(b, a + b) == b
  {
    if b != 0 {
      if a != 0 {
        assert BitAnd(a, b) == 2 * BitAnd(a / 2, b / 2) + if a % 2 == 1 && b % 2 == 1 then 1 else 0;
      }
      ClearAdded(a / 2, b / 2);
      assert (a + b) / 2 == a / 2 + b / 2;
    }
  }

  /** A multiple of `2^k` and a number below `2^k` have no bit in common. */
  lemma {:induction false} AlignedDisjoint(m: nat, b: nat, k: nat)
    requires b < Pow2(k)
    ensures BitAnd(m * Pow2(k), b) == 0
  {
    if k > 0 && b != 0 && m * Pow2(k) != 0 {
      var half := m * Pow2(k - 1);
      assert m * Pow2(k) == 2 * half;
      AlignedDisjoint(m, b / 2, k - 1);
    }
  }

  lemma AlignedFlags(a: nat, f: nat)
    requires a % 4096 == 0 && f < 4096
    ensures BitAnd(a, f) == 0
  {
    assert Pow2(12) == 4096 by {
      assert Pow2(4) == 16;
      assert Pow2(8) == 256;
    }
    AlignedDisjoint(a / 4096, f, 12);
  }
}
