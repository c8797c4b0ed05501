/**
Words as sets of bit positions: what the bitwise operators do to a single bit, the
ascending list of the bits that are set, and how many there are.
*/
module BitSets {
  import opened Bits
  import opened Crc

  predicate Bit(w: nat, i: nat)
    decreases i
  {
    if i == 0 then w % 2 == 1 else Bit(w / 2, i - 1)
  }

  lemma {:induction false} ZeroBit(i: nat)
    ensures !Bit(0, i)
    decreases i
  {
    if i > 0 {
      ZeroBit(i - 1);
    }
  }

  lemma {:induction false} OrBit(a: nat, b: nat, i: nat)
    ensures Bit(BitOr(a, b), i) <==> Bit(a, i) || Bit(b, i)
    decreases i
  {
    assert BitOr(a, b) / 2 == BitOr(a / 2, b / 2);
    if i > 0 {
      OrBit(a / 2, b / 2, i - 1);
    }
  }

  lemma AndParts(a: nat, b: nat)
    ensures BitAnd(a, b) / 2 == BitAnd(a / 2, b / 2)
    ensures BitAnd(a, b) % 2 == if a % 2 == 1 && b % 2 == 1 then 1 else 0
  {
  }

  lemma {:induction false} AndBit(a: nat, b: nat, i: nat)
    ensures Bit(BitAnd(a, b), i) <==> Bit(a, i) && Bit(b, i)
    decreases i
  {
    AndParts(a, b);
    if i > 0 {
      AndBit(a / 2, b / 2, i - 1);
    }
  }

  lemma {:induction false} XorBit(a: nat, b: nat, i: nat)
    ensures Bit(Xor(a, b), i) <==> Bit(a, i) != Bit(b, i)
    decreases i
  {
    XorParts(a, b);
    if i > 0 {
      XorBit(a / 2, b / 2, i - 1);
    }
  }

  lemma ClearParts(a: nat, b: nat)
    ensures BitClear(a, b) / 2 == BitClear(a / 2, b / 2)
    ensures BitClear(a, b) % 2 == if a % 2 == 1 && b % 2 == 0 then 1 else 0
  {
    AndParts(b, a);
    AndAtMost(b, a);
    AndAtMost(b / 2, a / 2);
  }

  lemma {:induction false} ClearBit(a: nat, b: nat, i: nat)
    ensures Bit(BitClear(a, b), i) <==> Bit(a, i) && !Bit(b, i)
    decreases i
  {
    ClearParts(a, b);
    if i > 0 {
      ClearBit(a / 2, b / 2, i - 1);
    }
  }

  lemma {:induction false} OneBit(k: nat, i: nat)
    ensures Bit(Pow2(k), i) <==> i == k
    decreases i
  {
    if i > 0 {
      if k == 0 {
        ZeroBit(i - 1);
      } else {
        OneBit(k - 1, i - 1);
      }
    }
  }

  /** The operators keep words inside `2^n`. */
  lemma {:induction false} OpsBound(a: nat, b: nat, n: nat)
    requires a < Pow2(n) && b < Pow2(n)
    ensures BitOr(a, b) < Pow2(n) && BitAnd(a, b) < Pow2(n) && BitClear(a, b) < Pow2(n) && Xor(a, b) < Pow2(n)
  {
    OrBound(a, b, n);
    AndAtMost(a, b);
    XorBound(a, b, n);
  }

  lemma {:induction false} OrBound(a: nat, b: nat, n: nat)
    requires a < Pow2(n) && b < Pow2(n)
    ensures BitOr(a, b) < Pow2(n)
  {
    if n > 0 {
      OrBound(a / 2, b / 2, n - 1);
    }
  }

  // ---- the bits that are set ----------------------------------------------------------------

  /** Positions of the set bits of `w`, counted from `base`, in ascending order. */
  function Ones(w: nat, base: nat): seq<nat>
    decreases w
  {
    if w == 0 then [] else (if w % 2 == 1 then [base] else []) + Ones(w / 2, base + 1)
  }

  /** `count_ones`. */
  function CountOnes(w: nat): nat {
    if w == 0 then 0 else w % 2 + CountOnes(w / 2)
  }

  lemma {:induction false} OnesCounted(w: nat, base: nat)
    ensures |Ones(w, base)| == CountOnes(w)
    decreases w
  {
    if w != 0 {
      OnesCounted(w / 2, base + 1);
    }
  }

  lemma {:induction false} OnesAre(w: nat, base: nat, x: nat)
    ensures x in Ones(w, base) <==> x >= base && Bit(w, x - base)
    decreases w
  {
    if w == 0 {
      if x >= base {
        ZeroBit(x - base);
      }
    } else {
      OnesAre(w / 2, base + 1, x);
    }
  }

  ghost predicate AllFrom(s: seq<nat>, m: nat) {
    forall k :: 0 <= k < |s| ==> s[k] >= m
  }

  ghost predicate AllBelow(s: seq<nat>, m: nat) {
    forall k :: 0 <= k < |s| ==> s[k] < m
  }

  ghost predicate Ascending(s: seq<nat>) {
    s == [] || (AllFrom(s[1..], s[0] + 1) && Ascending(s[1..]))
  }

  lemma {:induction false} AscendingMeans(s: seq<nat>, i: nat, j: nat)
    requires Ascending(s) && i < j < |s|
    ensures s[i] < s[j]
  {
    if i == 0 {
      assert s[1..][j - 1] == s[j];
    } else {
      AscendingMeans(s[1..], i - 1, j - 1);
    }
  }

  lemma {:induction false} AscendingConcat(a: seq<nat>, b: seq<nat>, m: nat)
    requires Ascending(a) && Ascending(b) && AllBelow(a, m) && AllFrom(b, m)
    ensures Ascending(a + b)
  {
    if a == [] {
      assert a + b == b;
    } else {
      assert (a + b)[1..] == a[1..] + b;
      assert a[0] < m;
      AscendingConcat(a[1..], b, m);
    }
  }

  lemma {:induction false} OnesAscend(w: nat, base: nat)
    ensures Ascending(Ones(w, base)) && AllFrom(Ones(w, base), base)
    decreases w
  {
    if w != 0 {
      OnesAscend(w / 2, base + 1);
      var rest := Ones(w / 2, base + 1);
      assert ([base] + rest)[1..] == rest && [] + rest == rest;
    }
  }

  lemma {:induction false} OnesBelow(w: nat, base: nat, n: nat)
    requires w < Pow2(n)
    ensures AllBelow(Ones(w, base), base + n)
    decreases w
  {
    if w != 0 {
      OnesBelow(w / 2, base + 1, n - 1);
    }
  }

  /** `trailing_zeros` of a word that is not zero. */
  function Trailing(w: nat): nat
    requires w > 0
  {
    if w % 2 == 1 then 0 else 1 + Trailing(w / 2)
  }

  /** The lowest set bit comes first; clearing it leaves the others. */
  lemma {:induction false} OnesPop(w: nat, base: nat)
    requires w > 0
    ensures Ones(w, base) == [base + Trailing(w)] + Ones(BitClear(w, Pow2(Trailing(w))), base)
    decreases w
  {
    var t := Trailing(w);
    ClearParts(w, Pow2(t));
    if w % 2 == 1 {
      NoClear(w / 2);
    } else {
      OnesPop(w / 2, base + 1);
    }
  }

  lemma NoClear(a: nat)
    ensures BitClear(a, 0) == a
  {
  }

  ghost function SetOf(s: seq<nat>): set<nat> {
    set x | x in s
  }

  /** A list without repetition is as long as its set is large. */
  lemma {:induction false} AscendingSize(s: seq<nat>)
    requires Ascending(s)
    ensures |SetOf(s)| == |s|
  {
    if s != [] {
      AscendingSize(s[1..]);
      assert s == [s[0]] + s[1..];
      assert SetOf(s) == {s[0]} + SetOf(s[1..]);
    }
  }
}
