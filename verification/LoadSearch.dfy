/**
Choosing where to load the kernel (boot/x86_64-boot-stub/src/main.rs:386-436 and
boot/x86-boot-common/src/lib.rs:155-174): first fit over the firmware's memory map,
2 MiB aligned, clear of every reserved range.  Address arithmetic is assumed not to
overflow 64 bits.
*/
module LoadSearch {
  import opened Prelude
  import opened Align

  const ALIGN: nat := 0x20_0000

  datatype Range = Range(start: nat, end: nat)

  datatype Area = Area(addr: nat, size: nat, usable: bool)

  /** The overlap test against one reserved range. */
  predicate Overlaps(start: nat, end: nat, r: Range) {
    start < r.end && r.start < end
  }

  /** For ranges that are not empty it is what its name says: they share an address. */
  lemma OverlapMeans(start: nat, end: nat, r: Range)
    requires start < end && r.start < r.end
    ensures Overlaps(start, end, r) <==> exists p: nat :: Shared(start, end, r, p)
  {
    if Overlaps(start, end, r) {
      assert Shared(start, end, r, if start < r.start then r.start else start);
    }
  }

  predicate Shared(start: nat, end: nat, r: Range, p: nat) {
    start <= p < end && r.start <= p < r.end
  }

  /** The furthest end of the reserved ranges a candidate collides with. */
  function OverlappingReservedEnd(start: nat, end: nat, reserved: seq<Range>): (r: Option<nat>)
    ensures r.None? <==> forall x :: x in reserved ==> !Overlaps(start, end, x)
    ensures r.Some? ==> exists x :: x in reserved && Overlaps(start, end, x) && x.end == r.value
    ensures r.Some? ==> forall x :: x in reserved && Overlaps(start, end, x) ==> x.end <= r.value
  {
    if reserved == [] then None else
      var x := reserved[0];
      var rest := OverlappingReservedEnd(start, end, reserved[1..]);
      assert reserved == [x] + reserved[1..];
      if !Overlaps(start, end, x) then rest
      else if rest.None? || x.end > rest.value then Some(x.end)
      else rest
  }

  /** `s` is an acceptable load address inside `a`. */
  ghost predicate Candidate(a: Area, minPaddr: nat, size: nat, reserved: seq<Range>, s: nat) {
    && s % 0x20_0000 == 0 && s >= a.addr && s >= minPaddr && s + size <= a.addr + a.size
    && forall x :: x in reserved ==> !Overlaps(s, s + size, x)
  }

  /** No aligned address below the end of a colliding range, from the collision on, is free. */
  lemma SkipLosesNothing(s: nat, size: nat, reserved: seq<Range>, next: nat, t: nat)
    requires OverlappingReservedEnd(s, s + size, reserved) == Some(next)
    requires t % ALIGN == 0 && s <= t
    ensures t < AlignUp(next, ALIGN) ==> exists x :: x in reserved && Overlaps(t, t + size, x)
  {
    var x :| x in reserved && Overlaps(s, s + size, x) && x.end == next;
    assert t < next ==> Overlaps(t, t + size, x);
  }

  /** First fit inside one area. */
  method SearchArea(a: Area, minPaddr: nat, size: nat, reserved: seq<Range>) returns (r: Option<nat>)
    ensures r.Some? ==> Candidate(a, minPaddr, size, reserved, r.value)
    ensures r.Some? ==> forall s: nat :: Candidate(a, minPaddr, size, reserved, s) ==> r.value <= s
    ensures r.None? ==> forall s: nat :: !Candidate(a, minPaddr, size, reserved, s)
  {
    var end := a.addr + a.size;
    var start := AlignUp(if a.addr > minPaddr then a.addr else minPaddr, ALIGN);
    while end >= start && end - start >= size
      invariant start % ALIGN == 0 && start >= a.addr && start >= minPaddr
      invariant forall s: nat :: Candidate(a, minPaddr, size, reserved, s) ==> s >= start
      decreases end - start
    {
      var next := OverlappingReservedEnd(start, start + size, reserved);
      if next.None? {
        return Some(start);
      }
      forall s: nat | Candidate(a, minPaddr, size, reserved, s) ensures s >= AlignUp(next.value, ALIGN) {
        SkipLosesNothing(start, size, reserved, next.value, s);
      }
      start := AlignUp(next.value, ALIGN);
    }
    return None;
  }

  /** The search over the memory map: the lowest acceptable address of the first
      usable area that has one; it fails only if no usable area has one. */
  method ChooseLoadAddress(areas: seq<Area>, minPaddr: nat, size: nat, reserved: seq<Range>) returns (r: Option<nat>, at: nat)
    ensures r.Some? ==>
              && at < |areas| && areas[at].usable && Candidate(areas[at], minPaddr, size, reserved, r.value)
              && (forall s: nat :: Candidate(areas[at], minPaddr, size, reserved, s) ==> r.value <= s)
              && (forall b: nat, s: nat :: b < at && areas[b].usable ==> !Candidate(areas[b], minPaddr, size, reserved, s))
    ensures r.None? ==> forall b: nat, s: nat :: b < |areas| && areas[b].usable ==> !Candidate(areas[b], minPaddr, size, reserved, s)
  {
    at := 0;
    while at < |areas|
      invariant at <= |areas|
      invariant forall b: nat, s: nat :: b < at && areas[b].usable ==> !Candidate(areas[b], minPaddr, size, reserved, s)
    {
      if areas[at].usable {
        r := SearchArea(areas[at], minPaddr, size, reserved);
        if r.Some? {
          return;
        }
      }
      at := at + 1;
    }
    r := None;
  }
}
