/**
The syscall bitset and the syscall map (api/linux_sysno/src/set.rs:64-208 and 288-356,
api/linux_sysno/src/map.rs:100-236).  A syscall is its number less the first number of the
table; words are 64 bits.
*/
module Sysno {
  import opened Prelude
  import opened Bits
  import opened Bytes
  import opened Crc
  import opened BitSets

  /** The members of a bitset, in ascending order, word by word from number `base`. */
  ghost function Elements(data: seq<Word>, base: nat): seq<nat> {
    if data == [] then [] else Ones(data[0], base) + Elements(data[1..], base + 64)
  }

  predicate Member(data: seq<Word>, x: nat) {
    x / 64 < |data| && Bit(data[x / 64], x % 64)
  }

  lemma WordSize(w: Word)
    ensures w < Pow2(64)
  {
    Pow2Values();
  }

  /** The list is in order, without repetition. */
  lemma {:induction false} ElementsAscend(data: seq<Word>, base: nat)
    ensures Ascending(Elements(data, base)) && AllFrom(Elements(data, base), base)
    decreases data
  {
    if data != [] {
      var w := data[0];
      WordSize(w);
      OnesAscend(w, base);
      OnesBelow(w, base, 64);
      ElementsAscend(data[1..], base + 64);
      AscendingConcat(Ones(w, base), Elements(data[1..], base + 64), base + 64);
    }
  }

  /** Listed members rise strictly: in order, and none twice. */
  lemma ElementsInOrder(data: seq<Word>, base: nat, i: nat, j: nat)
    requires i < j < |Elements(data, base)|
    ensures Elements(data, base)[i] < Elements(data, base)[j]
  {
    ElementsAscend(data, base);
    AscendingMeans(Elements(data, base), i, j);
  }

  lemma NotBelow(s: seq<nat>, m: nat, x: nat)
    requires AllFrom(s, m) && x < m
    ensures x !in s
  {
  }

  lemma NotAbove(s: seq<nat>, m: nat, x: nat)
    requires AllBelow(s, m) && x >= m
    ensures x !in s
  {
  }

  /** A number below `base + 64` can only be in the first word's list. */
  lemma InFirstWord(data: seq<Word>, base: nat, i: nat)
    requires data != [] && i < 64
    ensures base + i in Elements(data, base) <==> Bit(data[0], i)
  {
    OnesAre(data[0], base, base + i);
    ElementsAscend(data[1..], base + 64);
    NotBelow(Elements(data[1..], base + 64), base + 64, base + i);
  }

  lemma InLaterWord(data: seq<Word>, base: nat, x: nat)
    requires data != [] && x >= base + 64
    ensures x in Elements(data, base) <==> x in Elements(data[1..], base + 64)
  {
    WordSize(data[0]);
    OnesBelow(data[0], base, 64);
    NotAbove(Ones(data[0], base), base + 64, x);
  }

  /** The list holds the number of bit `i` of word `k` exactly when that bit is set. */
  lemma {:induction false} ElementsAre(data: seq<Word>, base: nat, k: nat, i: nat, x: nat)
    requires i < 64 && x == base + 64 * k + i
    ensures x in Elements(data, base) <==> k < |data| && Bit(data[k], i)
    decreases data
  {
    if data != [] {
      if k == 0 {
        InFirstWord(data, base, i);
      } else {
        InLaterWord(data, base, x);
        ElementsAre(data[1..], base + 64, k - 1, i, x);
      }
    }
  }

  ghost function MembersOf(data: seq<Word>): set<nat> {
    SetOf(Elements(data, 0))
  }

  lemma MembersAre(data: seq<Word>)
    ensures forall x: nat :: x in MembersOf(data) <==> Member(data, x)
  {
    forall x: nat ensures x in MembersOf(data) <==> Member(data, x) {
      ElementsAre(data, 0, x / 64, x % 64, x);
    }
  }

  // ---- single bits --------------------------------------------------------------------------

  /** The word and the mask of a syscall. */
  function Mask(x: nat): Word {
    Pow2Up(x % 64, 63);
    Pow2Values();
    assert Pow2(64) == 2 * Pow2(63);
    Pow2(x % 64)
  }

  lemma SameWord(x: nat, y: nat)
    requires x / 64 == y / 64 && x % 64 == y % 64
    ensures x == y
  {
  }

  lemma WordOps(a: Word, b: Word)
    ensures BitOr(a, b) < TWO64 && BitAnd(a, b) < TWO64 && BitClear(a, b) < TWO64 && Xor(a, b) < TWO64
  {
    Pow2Values();
    OpsBound(a, b, 64);
  }

  function WithBit(data: seq<Word>, x: nat): seq<Word>
    requires x / 64 < |data|
  {
    WordOps(data[x / 64], Mask(x));
    data[x / 64 := BitOr(data[x / 64], Mask(x))]
  }

  function WithoutBit(data: seq<Word>, x: nat): seq<Word>
    requires x / 64 < |data|
  {
    WordOps(data[x / 64], Mask(x));
    data[x / 64 := BitClear(data[x / 64], Mask(x))]
  }

  lemma WithBitMembers(data: seq<Word>, x: nat)
    requires x / 64 < |data|
    ensures MembersOf(WithBit(data, x)) == MembersOf(data) + {x}
  {
    MembersAre(data);
    MembersAre(WithBit(data, x));
    forall y: nat ensures Member(WithBit(data, x), y) <==> Member(data, y) || y == x {
      if y / 64 == x / 64 {
        OrBit(data[x / 64], Mask(x), y % 64);
        OneBit(x % 64, y % 64);
        if y % 64 == x % 64 {
          SameWord(x, y);
        }
      }
    }
  }

  lemma WithoutBitMembers(data: seq<Word>, x: nat)
    requires x / 64 < |data|
    ensures MembersOf(WithoutBit(data, x)) == MembersOf(data) - {x}
  {
    MembersAre(data);
    MembersAre(WithoutBit(data, x));
    forall y: nat ensures Member(WithoutBit(data, x), y) <==> Member(data, y) && y != x {
      if y / 64 == x / 64 {
        ClearBit(data[x / 64], Mask(x), y % 64);
        OneBit(x % 64, y % 64);
        if y % 64 == x % 64 {
          SameWord(x, y);
        }
      }
    }
  }

  lemma TestBit(data: seq<Word>, x: nat)
    requires x / 64 < |data|
    ensures BitAnd(data[x / 64], Mask(x)) != 0 <==> x in MembersOf(data)
  {
    MembersAre(data);
    MaskTest(data[x / 64], x % 64);
  }

  lemma {:induction false} MaskTest(w: nat, i: nat)
    ensures BitAnd(w, Pow2(i)) != 0 <==> Bit(w, i)
    decreases i
  {
    AndParts(w, Pow2(i));
    if i > 0 {
      MaskTest(w / 2, i - 1);
    }
  }

  // ---- whole sets ---------------------------------------------------------------------------

  datatype SetOp = Union | Intersection | Difference | SymmetricDifference

  function CombineWords(op: SetOp, a: Word, b: Word): Word {
    WordOps(a, b);
    match op
    case Union => BitOr(a, b)
    case Intersection => BitAnd(a, b)
    case Difference => BitClear(a, b)
    case SymmetricDifference => Xor(a, b)
  }

  ghost function CombineSets(op: SetOp, a: set<nat>, b: set<nat>): set<nat> {
    match op
    case Union => a + b
    case Intersection => a * b
    case Difference => a - b
    case SymmetricDifference => (a - b) + (b - a)
  }

  predicate CombineBits(op: SetOp, a: bool, b: bool) {
    match op
    case Union => a || b
    case Intersection => a && b
    case Difference => a && !b
    case SymmetricDifference => a != b
  }

  lemma CombineBit(op: SetOp, u: Word, v: Word, i: nat)
    ensures Bit(CombineWords(op, u, v), i) <==> CombineBits(op, Bit(u, i), Bit(v, i))
  {
    match op
    case Union => OrBit(u, v, i);
    case Intersection => AndBit(u, v, i);
    case Difference => ClearBit(u, v, i);
    case SymmetricDifference => XorBit(u, v, i);
  }

  /** Bit by bit, `c` combines `a` and `b`. */
  ghost predicate Combined(op: SetOp, a: seq<Word>, b: seq<Word>, c: seq<Word>) {
    && |a| == |b| == |c|
    && forall k, i: nat :: 0 <= k < |c| ==> (Bit(c[k], i) <==> CombineBits(op, Bit(a[k], i), Bit(b[k], i)))
  }

  lemma WordsCombined(op: SetOp, a: seq<Word>, b: seq<Word>, c: seq<Word>)
    requires |a| == |b| == |c| && forall k :: 0 <= k < |c| ==> c[k] == CombineWords(op, a[k], b[k])
    ensures Combined(op, a, b, c)
  {
    forall k, i: nat | 0 <= k < |c| ensures Bit(c[k], i) <==> CombineBits(op, Bit(a[k], i), Bit(b[k], i)) {
      CombineBit(op, a[k], b[k], i);
    }
  }

  lemma CombineMembers(op: SetOp, a: seq<Word>, b: seq<Word>, c: seq<Word>)
    requires Combined(op, a, b, c)
    ensures MembersOf(c) == CombineSets(op, MembersOf(a), MembersOf(b))
  {
    MembersAre(a);
    MembersAre(b);
    MembersAre(c);
    forall x: nat ensures Member(c, x) <==> CombineBits(op, Member(a, x), Member(b, x)) {
      var k, i := x / 64, x % 64;
      if k < |c| {
        assert Bit(c[k], i) <==> CombineBits(op, Bit(a[k], i), Bit(b[k], i));
      }
    }
  }

  // ---- counting -----------------------------------------------------------------------------

  function CountAll(data: seq<Word>): nat {
    if data == [] then 0 else CountOnes(data[0]) + CountAll(data[1..])
  }

  lemma {:induction false} ElementsCounted(data: seq<Word>, base: nat)
    ensures |Elements(data, base)| == CountAll(data)
    decreases data
  {
    if data != [] {
      OnesCounted(data[0], base);
      ElementsCounted(data[1..], base + 64);
    }
  }

  lemma MembersCounted(data: seq<Word>)
    ensures |MembersOf(data)| == CountAll(data)
  {
    ElementsCounted(data, 0);
    ElementsAscend(data, 0);
    AscendingSize(Elements(data, 0));
  }

  lemma {:induction false} NoMembers(data: seq<Word>, base: nat)
    ensures (forall k :: 0 <= k < |data| ==> data[k] == 0) <==> Elements(data, base) == []
    decreases data
  {
    if data != [] {
      NoMembers(data[1..], base + 64);
      assert data[0] != 0 ==> |Ones(data[0], base)| > 0 by {
        if data[0] != 0 {
          OnesPop(data[0], base);
        }
      }
      assert forall k :: 0 < k < |data| ==> data[k] == data[1..][k - 1];
    }
  }

  /** Words needed for `bits` bits. */
  function WordsFor(bits: nat): nat {
    bits / 64 + if bits % 64 != 0 then 1 else 0
  }

  // ---- the set ------------------------------------------------------------------------------

  /** A set of the syscalls `0..size`. */
  class SysnoSet {
    const size: nat
    const data: array<Word>

    ghost predicate Valid()
      reads this
    {
      data.Length == WordsFor(size)
    }

    ghost function Members(): set<nat>
      reads data
    {
      MembersOf(data[..])
    }

    constructor (size: nat)
      ensures Valid() && this.size == size && fresh(data) && Members() == {}
    {
      this.size := size;
      data := new Word[WordsFor(size)](_ => 0);
      new;
      NoMembers(data[..], 0);
    }

    /** `new`: the set of a list. */
    method AddAll(xs: seq<nat>)
      requires Valid() && forall k :: 0 <= k < |xs| ==> xs[k] < size
      modifies data
      ensures Members() == old(Members()) + SetOf(xs)
    {
      for k := 0 to |xs|
        invariant Members() == old(Members()) + SetOf(xs[..k])
      {
        var _ := Insert(xs[k]);
        assert xs[..k + 1] == xs[..k] + [xs[k]];
      }
      assert xs[..|xs|] == xs;
    }

    method Contains(x: nat) returns (r: bool)
      requires Valid() && x < size
      ensures r == (x in Members())
    {
      TestBit(data[..], x);
      r := BitAnd(data[x / 64], Mask(x)) != 0;
    }

    method Insert(x: nat) returns (added: bool)
      requires Valid() && x < size
      modifies data
      ensures Members() == old(Members()) + {x} && added == (x !in old(Members()))
    {
      TestBit(data[..], x);
      WithBitMembers(data[..], x);
      ghost var after := WithBit(data[..], x);
      added := BitAnd(data[x / 64], Mask(x)) == 0;
      WordOps(data[x / 64], Mask(x));
      data[x / 64] := BitOr(data[x / 64], Mask(x));
      assert data[..] == after;
    }

    method Remove(x: nat) returns (removed: bool)
      requires Valid() && x < size
      modifies data
      ensures Members() == old(Members()) - {x} && removed == (x in old(Members()))
    {
      TestBit(data[..], x);
      WithoutBitMembers(data[..], x);
      ghost var after := WithoutBit(data[..], x);
      removed := BitAnd(data[x / 64], Mask(x)) != 0;
      WordOps(data[x / 64], Mask(x));
      data[x / 64] := BitClear(data[x / 64], Mask(x));
      assert data[..] == after;
    }

    method Clear()
      requires Valid()
      modifies data
      ensures Members() == {}
    {
      for k := 0 to data.Length
        invariant forall j :: 0 <= j < k ==> data[j] == 0
      {
        data[k] := 0;
      }
      NoMembers(data[..], 0);
    }

    method IsEmpty() returns (r: bool)
      requires Valid()
      ensures r == (Members() == {})
    {
      NoMembers(data[..], 0);
      MembersCounted(data[..]);
      ElementsCounted(data[..], 0);
      for k := 0 to data.Length
        invariant forall j :: 0 <= j < k ==> data[j] == 0
      {
        if data[k] != 0 {
          assert data[..][k] != 0;
          return false;
        }
      }
      return true;
    }

    /** The number of members. */
    method Count() returns (n: nat)
      requires Valid()
      ensures n == |Members()|
    {
      MembersCounted(data[..]);
      n := 0;
      for k := 0 to data.Length
        invariant n + CountAll(data[k..]) == CountAll(data[..])
      {
        assert data[k..][1..] == data[k + 1..];
        n := n + CountOnes(data[k]);
      }
    }

    /** The word-by-word loops of union, intersection and the two differences. */
    method Combine(op: SetOp, other: SysnoSet)
      requires Valid() && other.Valid() && other.size == size && other.data != data
      modifies data
      ensures Members() == CombineSets(op, old(Members()), other.Members())
    {
      ghost var before := data[..];
      for k := 0 to data.Length
        invariant forall j :: 0 <= j < data.Length ==>
                    data[j] == if j < k then CombineWords(op, before[j], other.data[j]) else before[j]
        invariant other.data[..] == old(other.data[..])
      {
        data[k] := CombineWords(op, data[k], other.data[k]);
      }
      WordsCombined(op, before, other.data[..], data[..]);
      CombineMembers(op, before, other.data[..], data[..]);
    }
  }

  // ---- the iterator -------------------------------------------------------------------------

  /** A pass over the words of a set: `count` words were taken, `current` is what is left of
      the last one. */
  class SysnoSetIter {
    const data: seq<Word>
    var count: nat
    var current: Option<Word>

    ghost predicate Valid()
      reads this
    {
      && count <= |data|
      && (current.Some? ==> current.value > 0 && count > 0)
      && (current.None? ==> Elements(data[count..], 64 * count) == [])
    }

    /** What is still to come. */
    ghost function Rest(): seq<nat>
      requires Valid()
      reads this
    {
      (if current.Some? then Ones(current.value, 64 * (count - 1)) else []) + Elements(data[count..], 64 * count)
    }

    constructor (data: seq<Word>)
      ensures Valid() && this.data == data && Rest() == Elements(data, 0)
    {
      this.data := data;
      count := 0;
      current := None;
      new;
      assert data[0..] == data;
      current := NextWord();
    }

    /** The next word that is not zero. */
    method NextWord() returns (r: Option<Word>)
      requires count <= |data|
      modifies this`count
      ensures count <= |data|
      ensures r.Some? ==>
                && r.value > 0 && count > 0
                && old(Elements(data[count..], 64 * count))
                   == Ones(r.value, 64 * (count - 1)) + Elements(data[count..], 64 * count)
      ensures r.None? ==> old(Elements(data[count..], 64 * count)) == [] && Elements(data[count..], 64 * count) == []
    {
      while count < |data|
        invariant count <= |data|
        invariant old(Elements(data[count..], 64 * count)) == Elements(data[count..], 64 * count)
      {
        var word := data[count];
        assert data[count..][1..] == data[count + 1..];
        count := count + 1;
        if word != 0 {
          return Some(word);
        }
      }
      return None;
    }

    /** The lowest bit left in the current word; the members come out one by one, ascending. */
    method Next() returns (r: Option<nat>)
      requires Valid()
      modifies this
      ensures Valid()
      ensures r.None? ==> old(Rest()) == [] && Rest() == []
      ensures r.Some? ==> old(Rest()) == [r.value] + Rest()
    {
      if current.None? {
        return None;
      }
      var word := current.value;
      var index := count - 1;
      var bit := Trailing(word);
      PopRest(word, 64 * index, Elements(data[count..], 64 * count));
      var left: Word := BitClear(word, Pow2(bit));
      if left != 0 {
        current := Some(left);
      } else {
        current := NextWord();
      }
      return Some(64 * index + bit);
    }
  }

  /** The lowest bit of a word leads the list; the rest of the word stays in front of it. */
  lemma PopRest(w: Word, base: nat, tail: seq<nat>)
    requires w > 0
    ensures var left := BitClear(w, Pow2(Trailing(w)));
            && left < TWO64
            && Ones(w, base) + tail == [base + Trailing(w)] + (Ones(left, base) + tail)
            && (left == 0 ==> Ones(left, base) + tail == tail)
  {
    OnesPop(w, base);
  }

  // ---- the map ------------------------------------------------------------------------------

  /** A slot is initialised exactly when its bit is set. */
  ghost predicate SlotsMatch<T>(data: seq<Word>, slots: seq<Option<T>>) {
    forall x: nat :: x in MembersOf(data) <==> x < |slots| && slots[x].Some?
  }

  ghost function ContentsOf<T>(data: seq<Word>, slots: seq<Option<T>>): map<nat, T>
    requires SlotsMatch(data, slots)
  {
    map x | x in MembersOf(data) :: slots[x].value
  }

  /** `m` with the pairs written over it one after the other. */
  ghost function LastWins<T>(m: map<nat, T>, pairs: seq<(nat, T)>): map<nat, T> {
    if pairs == [] then m
    else
      var last := pairs[|pairs| - 1];
      LastWins(m, pairs[..|pairs| - 1])[last.0 := last.1]
  }

  /** The values of the listed keys, in the order of the list. */
  ghost function Values<T>(keys: seq<nat>, m: map<nat, T>): seq<T> {
    if keys == [] then [] else (if keys[0] in m then [m[keys[0]]] else []) + Values(keys[1..], m)
  }

  lemma ValuesFirst<T>(x: nat, rest: seq<nat>, m: map<nat, T>)
    requires x in m
    ensures Values([x] + rest, m) == [m[x]] + Values(rest, m)
  {
    assert ([x] + rest)[1..] == rest;
  }

  lemma {:induction false} ValuesCount<T>(keys: seq<nat>, m: map<nat, T>)
    requires forall x :: x in keys ==> x in m
    ensures |Values(keys, m)| == |keys|
  {
    if keys != [] {
      assert keys[0] in keys;
      ValuesCount(keys[1..], m);
    }
  }

  /** The ascending list has every member once. */
  lemma OrderCovers(data: seq<Word>)
    ensures |Elements(data, 0)| == |MembersOf(data)| && Ascending(Elements(data, 0))
    ensures forall x :: x in Elements(data, 0) <==> x in MembersOf(data)
  {
    ElementsAscend(data, 0);
    AscendingSize(Elements(data, 0));
  }

  /** The first element of an ascending list does not come again. */
  lemma TakeNext(x: nat, rest: seq<nat>)
    requires Ascending([x] + rest)
    ensures Ascending(rest) && x !in rest
  {
    assert ([x] + rest)[1..] == rest;
  }

  /** Exactly the listed slots are initialised, with the values of `m`. */
  ghost predicate Holds<T>(slots: seq<Option<T>>, keys: seq<nat>, m: map<nat, T>) {
    && (forall y :: y in keys ==> y < |slots| && y in m)
    && (forall y :: 0 <= y < |slots| ==> slots[y] == if y in keys then Some(m[y]) else None)
  }

  lemma HoldsLess<T>(slots: seq<Option<T>>, x: nat, rest: seq<nat>, m: map<nat, T>)
    requires Holds(slots, [x] + rest, m) && x !in rest
    ensures x < |slots| && x in m && slots[x] == Some(m[x])
    ensures Holds(slots[x := None], rest, m)
  {
    assert forall y :: y in [x] + rest <==> y == x || y in rest;
  }

  /** The members' slots hold the contents of the map. */
  lemma ContentsHeld<T>(data: seq<Word>, slots: seq<Option<T>>)
    requires SlotsMatch(data, slots)
    ensures var order, m := Elements(data, 0), ContentsOf(data, slots);
            Ascending(order) && Holds(slots, order, m) && |Values(order, m)| == |m|
  {
    var order, m := Elements(data, 0), ContentsOf(data, slots);
    OrderCovers(data);
    assert m.Keys == MembersOf(data);
    ValuesCount(order, m);
  }

  /** A map from syscalls: a slot is initialised exactly when its bit is set. */
  class SysnoMap<T> {
    const keys: SysnoSet
    const slots: array<Option<T>>
    ghost var dropped: seq<T>   // values the map itself has destroyed, in order

    ghost predicate Valid()
      reads this, keys, keys.data, slots
    {
      && keys.Valid() && slots.Length == keys.size
      && SlotsMatch(keys.data[..], slots[..])
    }

    ghost function Contents(): map<nat, T>
      requires Valid()
      reads this, keys, keys.data, slots
    {
      ContentsOf(keys.data[..], slots[..])
    }

    constructor (size: nat)
      ensures Valid() && Contents() == map[] && dropped == [] && slots.Length == size
      ensures fresh(keys) && fresh(keys.data) && fresh(slots)
    {
      keys := new SysnoSet(size);
      slots := new Option<T>[size](_ => None);
      dropped := [];
    }

    /** The previous value is handed to the caller, not destroyed. */
    method Insert(x: nat, value: T) returns (r: Option<T>)
      requires Valid() && x < slots.Length
      modifies keys.data, slots
      ensures Valid() && Contents() == old(Contents())[x := value]
      ensures r == if x in old(Contents()) then Some(old(Contents())[x]) else None
    {
      var added := keys.Insert(x);
      r := if added then None else slots[x];
      slots[x] := Some(value);
    }

    method Remove(x: nat) returns (r: Option<T>)
      requires Valid() && x < slots.Length
      modifies keys.data, slots
      ensures Valid() && Contents() == old(Contents()) - {x}
      ensures r == if x in old(Contents()) then Some(old(Contents())[x]) else None
    {
      var removed := keys.Remove(x);
      if removed {
        r := slots[x];
        slots[x] := None;
      } else {
        r := None;
      }
    }

    method Get(x: nat) returns (r: Option<T>)
      requires Valid() && x < slots.Length
      ensures r == if x in Contents() then Some(Contents()[x]) else None
    {
      var present := keys.Contains(x);
      r := if present then slots[x] else None;
    }
  
    /** Destroy the value of slot `x`, the first of those still to go. */
    method DropOne(x: nat, ghost rest: seq<nat>, ghost before: map<nat, T>)
      requires Ascending([x] + rest) && Holds(slots[..], [x] + rest, before)
      modifies this`dropped, slots
      ensures dropped + Values(rest, before) == old(dropped) + Values([x] + rest, before)
      ensures Ascending(rest) && Holds(slots[..], rest, before)
    {
      TakeNext(x, rest);
      HoldsLess(slots[..], x, rest, before);
      ghost var after := slots[..][x := None];
      ValuesFirst(x, rest, before);
      dropped := dropped + [slots[x].value];
      slots[x] := None;
      assert slots[..] == after;
    }

    /** Destroy the value of the next slot the iterator yields; false if there is none. */
    method DropNext(iter: SysnoSetIter, ghost before: map<nat, T>) returns (more: bool)
      requires iter.Valid() && Ascending(iter.Rest()) && Holds(slots[..], iter.Rest(), before)
      modifies this`dropped, slots, iter
      ensures iter.Valid() && Ascending(iter.Rest()) && Holds(slots[..], iter.Rest(), before)
      ensures dropped + Values(iter.Rest(), before) == old(dropped + Values(iter.Rest(), before))
      ensures if more then |iter.Rest()| < |old(iter.Rest())| else iter.Rest() == []
    {
      var x := iter.Next();
      if x.None? {
        return false;
      }
      DropOne(x.value, iter.Rest(), before);
      return true;
    }

    /** Destroy the values of all slots the iterator still yields, in that order. */
    method DropAll(iter: SysnoSetIter, ghost before: map<nat, T>)
      requires iter.Valid() && Ascending(iter.Rest()) && Holds(slots[..], iter.Rest(), before)
      modifies this`dropped, slots, iter
      ensures dropped == old(dropped + Values(iter.Rest(), before))
      ensures Holds(slots[..], [], before)
    {
      var more := true;
      while more
        invariant iter.Valid() && Ascending(iter.Rest()) && Holds(slots[..], iter.Rest(), before)
        invariant dropped + Values(iter.Rest(), before) == old(dropped + Values(iter.Rest(), before))
        invariant !more ==> iter.Rest() == []
        decreases more, |iter.Rest()|
      {
        more := DropNext(iter, before);
      }
    }

    /** Clearing destroys the value of each member once, in ascending order. */
    method Clear()
      requires Valid()
      modifies this`dropped, keys.data, slots
      ensures Valid() && Contents() == map[]
      ensures dropped == old(dropped) + Values(old(Elements(keys.data[..], 0)), old(Contents()))
      ensures |dropped| == |old(dropped)| + |old(Contents())|
    {
      ghost var before := Contents();
      ContentsHeld(keys.data[..], slots[..]);
      var iter := new SysnoSetIter(keys.data[..]);
      DropAll(iter, before);
      keys.Clear();
    }

    /** `from_slice` on an empty map: for repeated keys the last entry wins. */
    method AddAll(pairs: seq<(nat, T)>)
      requires Valid() && forall k :: 0 <= k < |pairs| ==> pairs[k].0 < slots.Length
      modifies keys.data, slots
      ensures Valid() && Contents() == LastWins(old(Contents()), pairs)
    {
      for k := 0 to |pairs|
        invariant Valid() && Contents() == LastWins(old(Contents()), pairs[..k])
      {
        var _ := Insert(pairs[k].0, pairs[k].1);
        assert pairs[..k + 1][..k] == pairs[..k];
      }
      assert pairs[..|pairs|] == pairs;
    }
  }
}
