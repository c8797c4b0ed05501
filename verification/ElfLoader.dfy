/**
The kernel ELF loader (boot/kernel-elf-loader/src/lib.rs): parsing checks every program
header, the segment iterator walks them again, and `load_to` places the segments.  Fields
are read little-endian at their ELF64 offsets; header offsets are assumed not to overflow
64 bits when added.
*/
module ElfLoader {
  import opened Prelude
  import opened Bits
  import opened Bytes
  import opened Align

  datatype ElfError =
    | InvalidHeader
    | InvalidProgramHeaderSize
    | InvalidProgramHeader
    | MemSmallerThanFile
    | FileRangeOverflow
    | FileRangeOutOfBounds
    | MemoryRangeOverflow
    | AlignedAddressOverflow
    | MissingSegments
    | LoadRangeOverflow
    | SourceRangeOverflow

  const PT_LOAD: nat := 1
  const PHDR_SIZE: nat := 56

  /** The fields of the file header the loader uses. */
  datatype Header = Header(phoff: nat, phentsize: nat, phnum: nat)

  datatype Phdr = Phdr(kind: nat, offset: nat, vaddr: nat, paddr: nat, filesz: nat, memsz: nat)

  function Field(b: seq<Byte>, at: nat, len: nat): nat
    requires at + len <= |b|
  {
    Number(b[at..at + len])
  }

  function ParseHeader(image: seq<Byte>): Option<Header> {
    if |image| < 64 || image[..5] != [0x7f, 0x45, 0x4c, 0x46, 2] then None
    else Some(Header(Field(image, 32, 8), Field(image, 54, 2), Field(image, 56, 2)))
  }

  /** Program header `idx`, if the file is long enough to hold it. */
  function PhdrAt(image: seq<Byte>, h: Header, idx: nat): Option<Phdr> {
    var off := h.phoff + idx * h.phentsize;
    if off + PHDR_SIZE > |image| then None
    else
      var b := image[off..off + PHDR_SIZE];
      Some(Phdr(Field(b, 0, 4), Field(b, 8, 8), Field(b, 16, 8), Field(b, 24, 8), Field(b, 32, 8), Field(b, 40, 8)))
  }

  /** Address and size a segment takes in memory. */
  function SegmentLayout(ph: Phdr): Result<(nat, nat), ElfError> {
    var vaddr := if ph.vaddr != 0 then ph.vaddr else ph.paddr;
    var memsz := if ph.vaddr == 0 && ph.memsz > vaddr then ph.memsz - vaddr else ph.memsz;
    if memsz < ph.filesz then Err(MemSmallerThanFile) else Ok((vaddr, memsz))
  }

  /** A header with a virtual address says where it goes and how much it takes.  One without
      goes to its physical address, and if its size reaches beyond that address it is the end
      of the segment. */
  lemma LayoutMeans(ph: Phdr)
    ensures SegmentLayout(ph).Ok? ==>
              var (vaddr, memsz) := SegmentLayout(ph).value;
              && memsz >= ph.filesz
              && (ph.vaddr != 0 ==> vaddr == ph.vaddr && memsz == ph.memsz)
              && (ph.vaddr == 0 ==> vaddr == ph.paddr)
              && (ph.vaddr == 0 && ph.memsz > ph.paddr ==> vaddr + memsz == ph.memsz)
              && (ph.vaddr == 0 && ph.memsz <= ph.paddr ==> memsz == ph.memsz)
    ensures SegmentLayout(ph).Err? ==>
              && SegmentLayout(ph).error == MemSmallerThanFile
              && if ph.vaddr == 0 && ph.memsz > ph.paddr then ph.memsz < ph.filesz + ph.paddr else ph.memsz < ph.filesz
  {
  }

  // ---- what parsing promises ----------------------------------------------------------------

  /** The first check program header `idx` fails, if any. */
  function Fault(image: seq<Byte>, h: Header, idx: nat): Option<ElfError> {
    match PhdrAt(image, h, idx)
    case None => Some(InvalidProgramHeader)
    case Some(ph) =>
      if ph.kind != PT_LOAD then None
      else match SegmentLayout(ph)
        case Err(e) => Some(e)
        case Ok((vaddr, memsz)) =>
          if ph.offset + ph.filesz >= TWO64 then Some(FileRangeOverflow)
          else if ph.offset + ph.filesz > |image| then Some(FileRangeOutOfBounds)
          else if vaddr + memsz >= TWO64 then Some(MemoryRangeOverflow)
          else if vaddr + memsz + 0xfff >= TWO64 then Some(AlignedAddressOverflow)
          else None
  }

  datatype Segment = Segment(vaddr: nat, memsz: nat, data: seq<Byte>)

  /** A header passes every check exactly when it can be read and, if it is loadable, its
      file bytes are in the file and in the segment, whose last page ends below 2^64. */
  lemma SoundHeader(image: seq<Byte>, h: Header, idx: nat)
    ensures Fault(image, h, idx).None? <==>
              && PhdrAt(image, h, idx).Some?
              && var ph := PhdrAt(image, h, idx).value;
                 ph.kind == PT_LOAD ==>
                   && ph.offset + ph.filesz < TWO64 && ph.offset + ph.filesz <= |image|
                   && SegmentLayout(ph).Ok?
                   && var (vaddr, memsz) := SegmentLayout(ph).value;
                      ph.filesz <= memsz && AlignUp(vaddr + memsz, 0x1000) < TWO64
  {
    if PhdrAt(image, h, idx).Some? && SegmentLayout(PhdrAt(image, h, idx).value).Ok? {
      var (vaddr, memsz) := SegmentLayout(PhdrAt(image, h, idx).value).value;
      PageEndFits(vaddr + memsz);
    }
  }

  /** Rounding up to a page overflows exactly when adding the page mask does. */
  lemma PageEndFits(x: nat)
    ensures AlignUp(x, 0x1000) < TWO64 <==> x + 0xfff < TWO64
  {
  }

  /** Program header `idx` as a loadable segment. */
  function SegmentAt(image: seq<Byte>, h: Header, idx: nat): Option<Segment>
    requires Fault(image, h, idx).None?
  {
    var ph := PhdrAt(image, h, idx).value;
    if ph.kind != PT_LOAD then None
    else
      var (vaddr, memsz) := SegmentLayout(ph).value;
      Some(Segment(vaddr, memsz, image[ph.offset..ph.offset + ph.filesz]))
  }

  /** The first `n` program headers pass every check. */
  ghost predicate SoundTo(image: seq<Byte>, h: Header, n: nat) {
    forall idx :: 0 <= idx < n ==> Fault(image, h, idx).None?
  }

  ghost predicate Sound(image: seq<Byte>, h: Header) {
    SoundTo(image, h, h.phnum)
  }

  /** The loadable segments of headers `from..`, in file order. */
  ghost function Segments(image: seq<Byte>, h: Header, from: nat): seq<Segment>
    requires Sound(image, h) && from <= h.phnum
    decreases h.phnum - from
  {
    if from == h.phnum then []
    else
      var rest := Segments(image, h, from + 1);
      match SegmentAt(image, h, from)
      case None => rest
      case Some(s) => [s] + rest
  }

  /** Page-aligned start and end of a segment. */
  function PageStart(s: Segment): nat { s.vaddr / 0x1000 * 0x1000 }

  function PageEnd(s: Segment): nat { AlignUp(s.vaddr + s.memsz, 0x1000) }

  ghost predicate Loadable(image: seq<Byte>, h: Header, n: nat, i: nat, s: Segment)
    requires SoundTo(image, h, n)
  {
    i < n && SegmentAt(image, h, i) == Some(s)
  }

  /** `lo..hi` is the smallest page range that holds the first `n` headers' segments. */
  ghost predicate Bounds(image: seq<Byte>, h: Header, n: nat, lo: nat, hi: nat)
    requires SoundTo(image, h, n)
  {
    && (forall i, s :: Loadable(image, h, n, i, s) ==> lo <= PageStart(s) && PageEnd(s) <= hi)
    && (lo == TWO64 - 1 || exists i, s :: Loadable(image, h, n, i, s) && lo == PageStart(s))
    && (hi == 0 || exists i, s :: Loadable(image, h, n, i, s) && hi == PageEnd(s))
  }

  datatype Elf = Elf(image: seq<Byte>, header: Header, start: nat, end: nat)

  /** What a parsed image is known to satisfy. */
  ghost predicate Parsed(elf: Elf) {
    && ParseHeader(elf.image) == Some(elf.header) && elf.header.phentsize == PHDR_SIZE
    && Sound(elf.image, elf.header)
    && Bounds(elf.image, elf.header, elf.header.phnum, elf.start, elf.end)
    && elf.start < elf.end
  }

  // ---- parse --------------------------------------------------------------------------------

  lemma BoundsReached(image: seq<Byte>, h: Header, n: nat, m: nat, lo: nat, hi: nat)
    requires n <= m && SoundTo(image, h, m) && Bounds(image, h, n, lo, hi)
    ensures lo == TWO64 - 1 || exists i, s :: Loadable(image, h, m, i, s) && lo == PageStart(s)
    ensures hi == 0 || exists i, s :: Loadable(image, h, m, i, s) && hi == PageEnd(s)
  {
    if lo != TWO64 - 1 {
      var i, s :| Loadable(image, h, n, i, s) && lo == PageStart(s);
      assert Loadable(image, h, m, i, s);
    }
    if hi != 0 {
      var i, s :| Loadable(image, h, n, i, s) && hi == PageEnd(s);
      assert Loadable(image, h, m, i, s);
    }
  }

  /** Taking in the segment of header `n`, if it has one, moves the bounds to cover it. */
  lemma BoundsGrow(image: seq<Byte>, h: Header, n: nat, m: nat, lo: nat, hi: nat, next: Option<Segment>, lo': nat, hi': nat)
    requires m == n + 1 && SoundTo(image, h, m) && Bounds(image, h, n, lo, hi) && SegmentAt(image, h, n) == next
    requires lo' == if next.Some? && PageStart(next.value) < lo then PageStart(next.value) else lo
    requires hi' == if next.Some? && PageEnd(next.value) > hi then PageEnd(next.value) else hi
    ensures Bounds(image, h, m, lo', hi')
  {
    if next.Some? {
      assert Loadable(image, h, m, n, next.value);
    }
    forall i, t | Loadable(image, h, m, i, t) ensures lo' <= PageStart(t) && PageEnd(t) <= hi' {
      assert i == n || Loadable(image, h, n, i, t);
    }
    BoundsReached(image, h, n, m, lo, hi);
  }

  /** The loop of `parse`: the page range of all segments, or the first fault. */
  method ScanHeaders(image: seq<Byte>, h: Header) returns (r: Result<(nat, nat), ElfError>)
    ensures r.Ok? ==> Sound(image, h) && Bounds(image, h, h.phnum, r.value.0, r.value.1) && r.value.0 < TWO64
    ensures r.Err? ==> exists i :: 0 <= i < h.phnum && SoundTo(image, h, i) && Fault(image, h, i) == Some(r.error)
  {
    var lo: nat, hi: nat := TWO64 - 1, 0;
    for idx := 0 to h.phnum
      invariant SoundTo(image, h, idx) && Bounds(image, h, idx, lo, hi) && lo < TWO64
    {
      var fault, next := CheckHeader(image, h, idx);
      if fault.Some? {
        return Err(fault.value);
      }
      ghost var lo0, hi0 := lo, hi;
      assert SoundTo(image, h, idx + 1);
      if next.Some? {
        lo := if PageStart(next.value) < lo then PageStart(next.value) else lo;
        hi := if PageEnd(next.value) > hi then PageEnd(next.value) else hi;
      }
      BoundsGrow(image, h, idx, idx + 1, lo0, hi0, next, lo, hi);
    }
    return Ok((lo, hi));
  }

  /** Why an image with a good file header is refused. */
  ghost predicate Refused(image: seq<Byte>, h: Header, e: ElfError) {
    || (exists i :: 0 <= i < h.phnum && SoundTo(image, h, i) && Fault(image, h, i) == Some(e))
    || (e == MissingSegments && Sound(image, h) && exists lo, hi :: Bounds(image, h, h.phnum, lo, hi) && hi <= lo)
  }

  /** `KernelElf::parse`: it accepts exactly the images whose headers are all sound and
      whose segments span at least one page, and reports the first fault otherwise. */
  method Parse(image: seq<Byte>) returns (r: Result<Elf, ElfError>)
    ensures r.Ok? ==> r.value.image == image && Parsed(r.value)
    ensures r == Err(InvalidHeader) <==> ParseHeader(image).None?
    ensures ParseHeader(image).Some? ==>
              var h := ParseHeader(image).value;
              && (r == Err(InvalidProgramHeaderSize) <==> h.phentsize != PHDR_SIZE)
              && (h.phentsize == PHDR_SIZE && r.Err? ==> Refused(image, h, r.error))
  {
    var header := ParseHeader(image);
    if header.None? {
      return Err(InvalidHeader);
    }
    var h := header.value;
    if h.phentsize != PHDR_SIZE {
      return Err(InvalidProgramHeaderSize);
    }
    var range := ScanHeaders(image, h);
    if range.Err? {
      return Err(range.error);
    }
    var (lo, hi) := range.value;
    if lo == TWO64 - 1 || hi <= lo {
      NoSpan(image, h, lo, hi);
      return Err(MissingSegments);
    }
    return Ok(Elf(image, h, lo, hi));
  }

  /** The checks of one turn of the loop, in order. */
  method CheckHeader(image: seq<Byte>, h: Header, idx: nat) returns (fault: Option<ElfError>, next: Option<Segment>)
    ensures fault == Fault(image, h, idx)
    ensures fault.None? ==> next == SegmentAt(image, h, idx)
  {
    next := None;
    var ph := PhdrAt(image, h, idx);
    if ph.None? {
      return Some(InvalidProgramHeader), next;
    }
    if ph.value.kind != PT_LOAD {
      return None, next;
    }
    var layout := SegmentLayout(ph.value);
    if layout.Err? {
      return Some(layout.error), next;
    }
    var fileEnd := ph.value.offset + ph.value.filesz;
    if fileEnd >= TWO64 {
      return Some(FileRangeOverflow), next;
    }
    if fileEnd > |image| {
      return Some(FileRangeOutOfBounds), next;
    }
    var (vaddr, memsz) := layout.value;
    if vaddr + memsz >= TWO64 {
      return Some(MemoryRangeOverflow), next;
    }
    if vaddr + memsz + 0xfff >= TWO64 {
      return Some(AlignedAddressOverflow), next;
    }
    return None, Some(Segment(vaddr, memsz, image[ph.value.offset..fileEnd]));
  }

  lemma SegmentEndsLow(image: seq<Byte>, h: Header, i: nat, s: Segment)
    requires Fault(image, h, i).None? && SegmentAt(image, h, i) == Some(s)
    ensures PageEnd(s) < TWO64 && |s.data| <= s.memsz
  {
  }

  /** A lower bound that was never lowered leaves no room below it. */
  lemma NoSpan(image: seq<Byte>, h: Header, lo: nat, hi: nat)
    requires Sound(image, h) && Bounds(image, h, h.phnum, lo, hi) && (lo == TWO64 - 1 || hi <= lo)
    ensures hi <= lo
  {
    if hi != 0 {
      var i, s :| Loadable(image, h, h.phnum, i, s) && hi == PageEnd(s);
      SegmentEndsLow(image, h, i, s);
    }
  }

  // ---- the segment iterator -----------------------------------------------------------------

  /** `LoadSegments`: a cursor over the program headers. */
  class LoadSegments {
    const elf: Elf
    var idx: nat

    constructor (elf: Elf)
      requires Parsed(elf)
      ensures this.elf == elf && idx == 0
    {
      this.elf := elf;
      idx := 0;
    }

    ghost predicate Valid()
      reads this
    {
      Parsed(elf) && idx <= elf.header.phnum
    }

    /** The segments still to come. */
    ghost function Rest(): seq<Segment>
      requires Valid()
      reads this
    {
      Segments(elf.image, elf.header, idx)
    }

    /** On a parsed image the iterator yields the next loadable segment and ends only
        when there is none. */
    method Next() returns (r: Option<Segment>)
      requires Valid()
      modifies this`idx
      ensures Valid()
      ensures r.None? ==> old(Rest()) == [] && Rest() == []
      ensures r.Some? ==> old(Rest()) == [r.value] + Rest() && idx > old(idx)
    {
      while idx < elf.header.phnum
        invariant Valid() && idx >= old(idx) && Rest() == old(Rest())
      {
        assert Fault(elf.image, elf.header, idx).None?;
        var ph := PhdrAt(elf.image, elf.header, idx);
        if ph.None? {
          return None;
        }
        idx := idx + 1;
        if ph.value.kind == PT_LOAD {
          var layout := SegmentLayout(ph.value);
          var end := ph.value.offset + ph.value.filesz;
          if layout.Err? || end >= TWO64 || end > |elf.image| {
            return None;
          }
          return Some(Segment(layout.value.0, layout.value.1, elf.image[ph.value.offset..end]));
        }
      }
      return None;
    }
  }

  // ---- load_to ------------------------------------------------------------------------------

  /** Segment `s` has a file byte for address `v`. */
  predicate Covers(s: Segment, v: nat) {
    s.vaddr <= v < s.vaddr + |s.data|
  }

  /** The byte of address `v` once `segs` are loaded in order over zeroes. */
  function LoadedByte(segs: seq<Segment>, v: nat): Byte {
    if segs == [] then 0
    else
      var last := segs[|segs| - 1];
      if Covers(last, v) then last.data[v - last.vaddr] else LoadedByte(segs[..|segs| - 1], v)
  }

  /** Every segment of a parsed image lies inside its page range. */
  lemma {:induction false} SegmentsInside(elf: Elf, from: nat, s: Segment)
    requires Parsed(elf) && from <= elf.header.phnum && s in Segments(elf.image, elf.header, from)
    ensures elf.start <= s.vaddr && s.vaddr + s.memsz <= elf.end && |s.data| <= s.memsz
    decreases elf.header.phnum - from
  {
    var here := SegmentAt(elf.image, elf.header, from);
    if here == Some(s) {
      assert Loadable(elf.image, elf.header, elf.header.phnum, from, s);
      SegmentEndsLow(elf.image, elf.header, from, s);
    } else {
      SegmentsInside(elf, from + 1, s);
    }
  }

  /** Copy the file bytes of one segment to its place. */
  method CopySegment(mem: array<Byte>, elf: Elf, s: Segment, load: nat)
    requires elf.start <= s.vaddr && s.vaddr + |s.data| <= elf.end && load + (elf.end - elf.start) <= mem.Length
    modifies mem
    ensures forall a :: 0 <= a < mem.Length ==>
              mem[a] == if load <= a && Covers(s, elf.start + (a - load)) then s.data[elf.start + (a - load) - s.vaddr]
                        else old(mem[a])
  {
    var at := load + (s.vaddr - elf.start);
    forall a | at <= a < at + |s.data| {
      mem[a] := s.data[a - at];
    }
  }

  /** Memory holds the loaded image at `load` and is as before elsewhere. */
  ghost predicate Placed(now: seq<Byte>, before: seq<Byte>, elf: Elf, load: nat, segs: seq<Segment>) {
    && |now| == |before|
    && forall a :: 0 <= a < |now| ==>
         now[a] == if load <= a < load + (elf.end - elf.start) then LoadedByte(segs, elf.start + (a - load)) else before[a]
  }

  lemma PlacedMore(now: seq<Byte>, after: seq<Byte>, before: seq<Byte>, elf: Elf, load: nat, segs: seq<Segment>, s: Segment)
    requires Placed(now, before, elf, load, segs) && elf.start <= s.vaddr && s.vaddr + |s.data| <= elf.end
    requires |after| == |now|
    requires forall a :: 0 <= a < |now| ==>
               after[a] == if load <= a && Covers(s, elf.start + (a - load)) then s.data[elf.start + (a - load) - s.vaddr]
                          else now[a]
    ensures Placed(after, before, elf, load, segs + [s])
  {
    assert (segs + [s])[..|segs|] == segs;
  }

  ghost predicate Inside(elf: Elf, s: Segment) {
    elf.start <= s.vaddr && s.vaddr + |s.data| <= elf.end
  }

  /** Take the next segment off the iterator and copy it; false when there is none left. */
  method CopyNext(elf: Elf, mem: array<Byte>, load: nat, segments: LoadSegments, ghost segs: seq<Segment>,
                  ghost before: seq<Byte>) returns (more: bool)
    requires segments.Valid() && forall s :: s in segments.Rest() ==> Inside(elf, s)
    requires (segments as object) != (mem as object) && load + (elf.end - elf.start) <= mem.Length && elf.start <= elf.end
    requires Placed(mem[..], before, elf, load, segs)
    modifies mem, segments
    ensures segments.Valid() && more == (old(segments.Rest()) != [])
    ensures !more ==> mem[..] == old(mem[..]) && segments.Rest() == []
    ensures more ==>
              && segments.Rest() == old(segments.Rest())[1..]
              && Placed(mem[..], before, elf, load, segs + [old(segments.Rest())[0]])
  {
    var next := segments.Next();
    if next.None? {
      return false;
    }
    assert next.value in old(segments.Rest()) && Inside(elf, next.value);
    ghost var now := mem[..];
    CopySegment(mem, elf, next.value, load);
    PlacedMore(now, mem[..], before, elf, load, segs, next.value);
    return true;
  }

  /** Copy every segment the iterator still yields. */
  method CopyAll(elf: Elf, mem: array<Byte>, load: nat, segments: LoadSegments, ghost all: seq<Segment>, ghost before: seq<Byte>)
    requires segments.Valid() && segments.Rest() == all && forall s :: s in all ==> Inside(elf, s)
    requires (segments as object) != (mem as object) && load + (elf.end - elf.start) <= mem.Length && elf.start <= elf.end
    requires Placed(mem[..], before, elf, load, [])
    modifies mem, segments
    ensures Placed(mem[..], before, elf, load, all)
  {
    ghost var k := 0;
    assert all[..0] == [] && all[0..] == all;
    var more := true;
    while more
      invariant k <= |all| && segments.Valid() && segments.Rest() == all[k..]
      invariant Placed(mem[..], before, elf, load, all[..k])
      invariant !more ==> k == |all|
      decreases more, |all| - k
    {
      more := CopyNext(elf, mem, load, segments, all[..k], before);
      if more {
        assert all[..k] + [all[k]] == all[..k + 1] && all[k..][1..] == all[k + 1..];
        k := k + 1;
      }
    }
    assert all[..k] == all;
  }

  /** `load_to` for a source and destination that do not overlap: only the image range
      changes, and each of its bytes is the last covering segment's file byte, or zero. */
  method LoadTo(elf: Elf, mem: array<Byte>, load: nat, src: nat) returns (r: Result<(), ElfError>)
    requires Parsed(elf)
    requires load + (elf.end - elf.start) < TWO64 ==> load + (elf.end - elf.start) <= mem.Length
    requires !(load < src + |elf.image| && src < load + (elf.end - elf.start))
    modifies mem
    ensures r == if load + (elf.end - elf.start) >= TWO64 then Err(LoadRangeOverflow)
                 else if src + |elf.image| >= TWO64 then Err(SourceRangeOverflow) else Ok(())
    ensures r.Err? ==> mem[..] == old(mem[..])
    ensures r.Ok? ==> Placed(mem[..], old(mem[..]), elf, load, Segments(elf.image, elf.header, 0))
  {
    if load + (elf.end - elf.start) >= TWO64 {
      return Err(LoadRangeOverflow);
    }
    if src + |elf.image| >= TWO64 {
      return Err(SourceRangeOverflow);
    }
    ghost var before := mem[..];
    ghost var all := Segments(elf.image, elf.header, 0);
    forall a | load <= a < load + (elf.end - elf.start) {
      mem[a] := 0;
    }
    forall s | s in all ensures Inside(elf, s) {
      SegmentsInside(elf, 0, s);
    }
    var segments := new LoadSegments(elf);
    CopyAll(elf, mem, load, segments, all, before);
    return Ok(());
  }

  // ---- what the gABI asks -------------------------------------------------------------------

  predicate Spans(s: Segment, v: nat) {
    s.vaddr <= v < s.vaddr + s.memsz
  }

  /** The byte chapter 5 of the System V gABI gives a segment: file bytes, then zeroes. */
  function AbiByte(s: Segment, v: nat): Byte {
    if Covers(s, v) then s.data[v - s.vaddr] else 0
  }

  ghost predicate LoadsPerAbi(segs: seq<Segment>) {
    forall s, v: nat :: s in segs && Spans(s, v) ==> LoadedByte(segs, v) == AbiByte(s, v)
  }

  /** Segments agree wherever they share an address (for instance because none do). */
  ghost predicate Agree(segs: seq<Segment>) {
    forall s, t, v: nat :: s in segs && t in segs && Spans(s, v) && Spans(t, v) ==> AbiByte(s, v) == AbiByte(t, v)
  }

  /** A loaded byte comes from some covering segment, or from none and is zero. */
  lemma {:induction false} LoadedFrom(segs: seq<Segment>, v: nat)
    ensures (exists s :: s in segs && Covers(s, v) && LoadedByte(segs, v) == AbiByte(s, v))
            || ((forall s :: s in segs ==> !Covers(s, v)) && LoadedByte(segs, v) == 0)
  {
    if segs != [] {
      var n := |segs| - 1;
      assert segs[n] in segs;
      LoadedFrom(segs[..n], v);
      assert segs == segs[..n] + [segs[n]];
    }
  }

  /** Loading gives every segment its gABI contents exactly when segments agree wherever
      they overlap: a later segment's zero fill does not erase an earlier one's bytes. */
  lemma AbiExactly(segs: seq<Segment>)
    requires forall s :: s in segs ==> |s.data| <= s.memsz
    ensures LoadsPerAbi(segs) <==> Agree(segs)
  {
    if Agree(segs) {
      forall s, v: nat | s in segs && Spans(s, v) ensures LoadedByte(segs, v) == AbiByte(s, v) {
        LoadedFrom(segs, v);
        if t :| t in segs && Covers(t, v) && LoadedByte(segs, v) == AbiByte(t, v) {
          assert Spans(t, v);
        }
      }
    }
  }

  /** Said of memory: loading a parsed image leaves every segment its gABI contents exactly
      when its segments agree. */
  lemma LoadedPerAbi(now: seq<Byte>, before: seq<Byte>, elf: Elf, load: nat)
    requires Parsed(elf) && load + (elf.end - elf.start) <= |now|
    requires Placed(now, before, elf, load, Segments(elf.image, elf.header, 0))
    ensures (forall s, v: nat :: s in Segments(elf.image, elf.header, 0) && Spans(s, v) ==>
               && elf.start <= v < elf.end && now[load + (v - elf.start)] == AbiByte(s, v))
            <==> Agree(Segments(elf.image, elf.header, 0))
  {
    var segs := Segments(elf.image, elf.header, 0);
    forall s | s in segs ensures elf.start <= s.vaddr && s.vaddr + s.memsz <= elf.end && |s.data| <= s.memsz {
      SegmentsInside(elf, 0, s);
    }
    AbiExactly(segs);
    assert forall s, v: nat :: s in segs && Spans(s, v) ==>
             elf.start <= v < elf.end && now[load + (v - elf.start)] == LoadedByte(segs, v);
  }

  // ---- images for given segments --------------------------------------------------------------

  function HeaderBytes(phnum: nat): (r: seq<Byte>)
    ensures |r| == 64
  {
    [0x7f, 0x45, 0x4c, 0x46, 2] + Le(27, 0) + Le(8, 64) + Le(14, 0) + Le(2, 56) + Le(2, phnum) + Le(6, 0)
  }

  /** A program header for segment `s` whose file bytes are at `offset`. */
  function PhdrBytes(s: Segment, offset: nat): (r: seq<Byte>)
    ensures |r| == 56
  {
    Le(4, 1) + Le(4, 0) + Le(8, offset) + Le(8, s.vaddr) + Le(8, 0) + Le(8, |s.data|) + Le(8, s.memsz) + Le(8, 0)
  }

  /** The headers of `segs`, whose file bytes follow one another from `offset` on. */
  function Table(row: (Segment, nat) -> seq<Byte>, segs: seq<Segment>, offset: nat): (r: seq<Byte>)
    requires forall s, o :: |row(s, o)| == 56
    ensures |r| == 56 * |segs|
    decreases segs
  {
    if segs == [] then [] else row(segs[0], offset) + Table(row, segs[1..], offset + |segs[0].data|)
  }

  function Contents(segs: seq<Segment>): seq<Byte> {
    if segs == [] then [] else segs[0].data + Contents(segs[1..])
  }

  function Assemble(head: seq<Byte>, row: (Segment, nat) -> seq<Byte>, segs: seq<Segment>): seq<Byte>
    requires forall s, o :: |row(s, o)| == 56
  {
    head + Table(row, segs, 64 + 56 * |segs|) + Contents(segs)
  }

  function ImageOf(segs: seq<Segment>): seq<Byte> {
    Assemble(HeaderBytes(|segs|), PhdrBytes, segs)
  }

  /** Segments a file can hold, of which at least one takes memory. */
  ghost predicate Fileable(segs: seq<Segment>) {
    && |segs| < 0x1_0000 && |ImageOf(segs)| < TWO64
    && (forall s :: s in segs ==> |s.data| <= s.memsz && s.vaddr + s.memsz + 0xfff < TWO64)
    && exists s :: s in segs && s.memsz > 0
  }

  lemma ReadField(b: seq<Byte>, at: nat, len: nat, x: nat)
    requires at + len <= |b| && b[at..at + len] == Le(len, x) && x < Pow2(8 * len)
    ensures Field(b, at, len) == x
  {
    ReadBack(len, x);
  }

  lemma HeaderReads(phnum: nat, rest: seq<Byte>)
    requires phnum < 0x1_0000
    ensures ParseHeader(HeaderBytes(phnum) + rest) == Some(Header(64, 56, phnum))
  {
    var b := HeaderBytes(phnum) + rest;
    HeaderPieces([0x7f, 0x45, 0x4c, 0x46, 2], Le(27, 0), Le(8, 64), Le(14, 0), Le(2, 56), Le(2, phnum), Le(6, 0), rest);
    Pow2Values();
    ReadField(b, 32, 8, 64);
    ReadField(b, 54, 2, 56);
    ReadField(b, 56, 2, phnum);
  }

  lemma HeaderPieces(magic: seq<Byte>, a: seq<Byte>, phoff: seq<Byte>, c: seq<Byte>, size: seq<Byte>, num: seq<Byte>,
                     e: seq<Byte>, rest: seq<Byte>)
    requires |magic| == 5 && |a| == 27 && |phoff| == 8 && |c| == 14 && |size| == |num| == 2 && |e| == 6
    ensures var b := magic + a + phoff + c + size + num + e + rest;
            |b| >= 64 && b[..5] == magic && b[32..40] == phoff && b[54..56] == size && b[56..58] == num
  {
  }

  lemma PhdrPieces(kind: seq<Byte>, a: seq<Byte>, offset: seq<Byte>, vaddr: seq<Byte>, paddr: seq<Byte>,
                   filesz: seq<Byte>, memsz: seq<Byte>, e: seq<Byte>)
    requires |kind| == |a| == 4 && |offset| == |vaddr| == |paddr| == |filesz| == |memsz| == |e| == 8
    ensures var b := kind + a + offset + vaddr + paddr + filesz + memsz + e;
            && b[0..4] == kind && b[8..16] == offset && b[16..24] == vaddr && b[24..32] == paddr
            && b[32..40] == filesz && b[40..48] == memsz
  {
  }

  lemma PhdrFields(s: Segment, offset: nat)
    requires offset < TWO64 && s.vaddr < TWO64 && s.memsz < TWO64 && |s.data| < TWO64
    ensures var b := PhdrBytes(s, offset);
            && Field(b, 0, 4) == 1 && Field(b, 8, 8) == offset && Field(b, 16, 8) == s.vaddr
            && Field(b, 24, 8) == 0 && Field(b, 32, 8) == |s.data| && Field(b, 40, 8) == s.memsz
  {
    PhdrPieces(Le(4, 1), Le(4, 0), Le(8, offset), Le(8, s.vaddr), Le(8, 0), Le(8, |s.data|), Le(8, s.memsz), Le(8, 0));
    FieldsRead(PhdrBytes(s, offset), offset, s.vaddr, |s.data|, s.memsz);
  }

  /** The program header at `off` of an image that holds the bytes of segment `s`'s header there. */
  lemma PhdrReads(image: seq<Byte>, h: Header, i: nat, off: nat, row: seq<Byte>, ph: Phdr)
    requires off == h.phoff + i * h.phentsize && off + 56 <= |image| && image[off..off + 56] == row
    requires |row| == 56 && Field(row, 0, 4) == ph.kind && Field(row, 8, 8) == ph.offset && Field(row, 16, 8) == ph.vaddr
    requires Field(row, 24, 8) == ph.paddr && Field(row, 32, 8) == ph.filesz && Field(row, 40, 8) == ph.memsz
    ensures PhdrAt(image, h, i) == Some(ph)
  {
  }

  lemma FieldsRead(b: seq<Byte>, offset: nat, vaddr: nat, filesz: nat, memsz: nat)
    requires |b| == 56 && b[0..4] == Le(4, 1) && b[8..16] == Le(8, offset) && b[16..24] == Le(8, vaddr)
    requires b[24..32] == Le(8, 0) && b[32..40] == Le(8, filesz) && b[40..48] == Le(8, memsz)
    requires offset < TWO64 && vaddr < TWO64 && filesz < TWO64 && memsz < TWO64
    ensures Field(b, 0, 4) == 1 && Field(b, 8, 8) == offset && Field(b, 16, 8) == vaddr
    ensures Field(b, 24, 8) == 0 && Field(b, 32, 8) == filesz && Field(b, 40, 8) == memsz
  {
    Pow2Values();
    ReadField(b, 0, 4, 1);
    ReadField(b, 8, 8, offset);
    ReadField(b, 16, 8, vaddr);
    ReadField(b, 24, 8, 0);
    ReadField(b, 32, 8, filesz);
    ReadField(b, 40, 8, memsz);
  }

  lemma {:induction false} TableAt(row: (Segment, nat) -> seq<Byte>, segs: seq<Segment>, offset: nat, i: nat)
    requires (forall s, o :: |row(s, o)| == 56) && i < |segs|
    ensures Table(row, segs, offset)[56 * i..56 * i + 56] == row(segs[i], offset + |Contents(segs[..i])|)
    decreases segs
  {
    if i > 0 {
      var first, rest := row(segs[0], offset), Table(row, segs[1..], offset + |segs[0].data|);
      TableAt(row, segs[1..], offset + |segs[0].data|, i - 1);
      assert segs[..i][0] == segs[0] && segs[..i][1..] == segs[1..][..i - 1];
      SliceAfter(first, rest, 56 * (i - 1), 56);
    }
  }

  lemma SliceAfter(u: seq<Byte>, v: seq<Byte>, at: nat, len: nat)
    requires at + len <= |v|
    ensures (u + v)[|u| + at..|u| + at + len] == v[at..at + len]
  {
  }

  lemma {:induction false} ContentsAt(segs: seq<Segment>, i: nat)
    requires i < |segs|
    ensures |Contents(segs[..i])| + |segs[i].data| <= |Contents(segs)|
    ensures Contents(segs)[|Contents(segs[..i])|..|Contents(segs[..i])| + |segs[i].data|] == segs[i].data
  {
    if i > 0 {
      ContentsAt(segs[1..], i - 1);
      assert segs[..i][0] == segs[0] && segs[..i][1..] == segs[1..][..i - 1];
      var d, at := |segs[0].data|, |Contents(segs[1..][..i - 1])|;
      assert Contents(segs)[d + at..d + at + |segs[i].data|] == Contents(segs[1..])[at..at + |segs[i].data|];
    }
  }

  /** Where the image holds the header and the bytes of segment `i`. */
  lemma ImageAt(head: seq<Byte>, row: (Segment, nat) -> seq<Byte>, segs: seq<Segment>, i: nat) returns (offset: nat)
    requires |head| == 64 && (forall s, o :: |row(s, o)| == 56) && i < |segs|
    ensures var image := Assemble(head, row, segs);
            && 64 + i * 56 + 56 <= offset && offset + |segs[i].data| <= |image|
            && image[64 + i * 56..64 + i * 56 + 56] == row(segs[i], offset)
            && image[offset..offset + |segs[i].data|] == segs[i].data
  {
    var base := 64 + 56 * |segs|;
    offset := base + |Contents(segs[..i])|;
    TableAt(row, segs, base, i);
    ContentsAt(segs, i);
    ImagePieces(head, Table(row, segs, base), Contents(segs), |segs|, i,
                row(segs[i], offset), |Contents(segs[..i])|, segs[i].data);
  }

  lemma ImagePieces(head: seq<Byte>, table: seq<Byte>, contents: seq<Byte>, n: nat, i: nat,
                    row: seq<Byte>, at: nat, data: seq<Byte>)
    requires |head| == 64 && |table| == 56 * n && i < n && at + |data| <= |contents|
    requires table[56 * i..56 * i + 56] == row && contents[at..at + |data|] == data
    ensures var image := head + table + contents;
            && |image| == 64 + 56 * n + |contents|
            && image[64 + i * 56..64 + i * 56 + 56] == row
            && image[64 + 56 * n + at..64 + 56 * n + at + |data|] == data
  {
    SliceAfter(head, table, 56 * i, 56);
    SliceAfter(head + table, contents, at, |data|);
    SliceBefore(head + table, contents, 64 + i * 56, 56);
  }

  lemma SliceBefore(u: seq<Byte>, v: seq<Byte>, at: nat, len: nat)
    requires at + len <= |u|
    ensures (u + v)[at..at + len] == u[at..at + len]
  {
  }

  /** Program header `i` of the image is segment `i`. */
  lemma SegmentReads(segs: seq<Segment>, h: Header, i: nat)
    requires Fileable(segs) && h == Header(64, 56, |segs|) && i < |segs|
    ensures Fault(ImageOf(segs), h, i).None? && SegmentAt(ImageOf(segs), h, i) == Some(segs[i])
  {
    assert segs[i] in segs;
    var offset := ImageAt(HeaderBytes(|segs|), PhdrBytes, segs, i);
    HeaderMeansSegment(ImageOf(segs), h, i, segs[i], offset);
  }

  lemma HeaderMeansSegment(image: seq<Byte>, h: Header, i: nat, s: Segment, offset: nat)
    requires h.phoff == 64 && h.phentsize == 56 && 64 + i * 56 + 56 <= |image| < TWO64
    requires image[64 + i * 56..64 + i * 56 + 56] == PhdrBytes(s, offset)
    requires offset + |s.data| <= |image| && image[offset..offset + |s.data|] == s.data
    requires |s.data| <= s.memsz && s.vaddr + s.memsz + 0xfff < TWO64
    ensures Fault(image, h, i).None? && SegmentAt(image, h, i) == Some(s)
  {
    PhdrFields(s, offset);
    PhdrReads(image, h, i, 64 + i * 56, PhdrBytes(s, offset), Phdr(1, offset, s.vaddr, 0, |s.data|, s.memsz));
    PhdrMeansSegment(image, h, i, s, offset);
  }

  lemma PhdrMeansSegment(image: seq<Byte>, h: Header, i: nat, s: Segment, offset: nat)
    requires PhdrAt(image, h, i) == Some(Phdr(1, offset, s.vaddr, 0, |s.data|, s.memsz)) && |image| < TWO64
    requires offset + |s.data| <= |image| && image[offset..offset + |s.data|] == s.data
    requires |s.data| <= s.memsz && s.vaddr + s.memsz + 0xfff < TWO64
    ensures Fault(image, h, i).None? && SegmentAt(image, h, i) == Some(s)
  {
  }

  /** The program headers of `image` are `segs`, one by one. */
  ghost predicate Represents(image: seq<Byte>, h: Header, segs: seq<Segment>) {
    h.phnum == |segs| && forall i :: 0 <= i < |segs| ==> Fault(image, h, i).None? && SegmentAt(image, h, i) == Some(segs[i])
  }

  lemma {:induction false} SegmentsRead(image: seq<Byte>, h: Header, segs: seq<Segment>, from: nat)
    requires Represents(image, h, segs) && from <= |segs|
    ensures Segments(image, h, from) == segs[from..]
    decreases |segs| - from
  {
    if from < |segs| {
      SegmentsRead(image, h, segs, from + 1);
      assert segs[from..] == [segs[from]] + segs[from + 1..];
    }
  }

  /** The page range of the first `n` headers. */
  lemma {:induction false} BoundsExist(image: seq<Byte>, h: Header, n: nat) returns (lo: nat, hi: nat)
    requires SoundTo(image, h, n)
    ensures Bounds(image, h, n, lo, hi)
  {
    if n == 0 {
      lo, hi := TWO64 - 1, 0;
      BoundsOfNone(image, h);
    } else {
      var lo0, hi0 := BoundsExist(image, h, n - 1);
      lo, hi := BoundsWith(image, h, n - 1, lo0, hi0);
    }
  }

  lemma BoundsOfNone(image: seq<Byte>, h: Header)
    ensures SoundTo(image, h, 0) && Bounds(image, h, 0, TWO64 - 1, 0)
  {
  }

  lemma BoundsWith(image: seq<Byte>, h: Header, n: nat, lo: nat, hi: nat) returns (lo': nat, hi': nat)
    requires SoundTo(image, h, n + 1) && Bounds(image, h, n, lo, hi)
    ensures Bounds(image, h, n + 1, lo', hi')
  {
    var next := SegmentAt(image, h, n);
    var m := n + 1;
    lo' := if next.Some? && PageStart(next.value) < lo then PageStart(next.value) else lo;
    hi' := if next.Some? && PageEnd(next.value) > hi then PageEnd(next.value) else hi;
    BoundsGrow(image, h, n, m, lo, hi, next, lo', hi');
  }

  /** Every list of segments that fits in a file is what some image parses to. */
  lemma EverySegmentList(segs: seq<Segment>) returns (elf: Elf)
    requires Fileable(segs)
    ensures Parsed(elf) && Segments(elf.image, elf.header, 0) == segs
  {
    var h := Header(64, 56, |segs|);
    ImageHeader(segs);
    forall i | 0 <= i < |segs|
      ensures Fault(ImageOf(segs), h, i).None? && SegmentAt(ImageOf(segs), h, i) == Some(segs[i])
    {
      SegmentReads(segs, h, i);
    }
    elf := RepresentedParses(ImageOf(segs), h, segs);
  }

  lemma ImageHeader(segs: seq<Segment>)
    requires |segs| < 0x1_0000
    ensures ParseHeader(ImageOf(segs)) == Some(Header(64, 56, |segs|))
  {
    var head, table, contents := HeaderBytes(|segs|), Table(PhdrBytes, segs, 64 + 56 * |segs|), Contents(segs);
    HeaderReads(|segs|, table + contents);
    Reassociate(head, table, contents);
  }

  lemma Reassociate(u: seq<Byte>, v: seq<Byte>, w: seq<Byte>)
    ensures u + v + w == u + (v + w)
  {
  }

  lemma RepresentedParses(image: seq<Byte>, h: Header, segs: seq<Segment>) returns (elf: Elf)
    requires ParseHeader(image) == Some(h) && h.phentsize == 56 && Represents(image, h, segs)
    requires exists s :: s in segs && s.memsz > 0
    ensures Parsed(elf) && elf.image == image && elf.header == h && Segments(image, h, 0) == segs
  {
    SegmentsRead(image, h, segs, 0);
    var lo, hi := BoundsExist(image, h, |segs|);
    var s :| s in segs && s.memsz > 0;
    BoundsSpan(image, h, segs, lo, hi, s);
    elf := Elf(image, h, lo, hi);
  }

  lemma BoundsSpan(image: seq<Byte>, h: Header, segs: seq<Segment>, lo: nat, hi: nat, s: Segment)
    requires Represents(image, h, segs) && SoundTo(image, h, |segs|) && Bounds(image, h, |segs|, lo, hi)
    requires s in segs && s.memsz > 0
    ensures lo < hi
  {
    var i :| 0 <= i < |segs| && segs[i] == s;
    assert Loadable(image, h, |segs|, i, s);
    PageSpan(s);
  }

  lemma PageSpan(s: Segment)
    requires s.memsz > 0
    ensures PageStart(s) < PageEnd(s)
  {
  }

  lemma ContentsOfTwo(a: Segment, b: Segment)
    ensures |Contents([a, b])| == |a.data| + |b.data|
  {
    var segs := [a, b];
    assert segs[1..] == [b];
    ContentsOfOne(b);
    assert Contents(segs) == a.data + Contents(segs[1..]);
  }

  lemma ContentsOfOne(b: Segment)
    ensures |Contents([b])| == |b.data|
  {
    var segs := [b];
    assert segs[1..] == [] && |Contents(segs[1..])| == 0;
    assert Contents(segs) == b.data + Contents(segs[1..]);
  }

  /** An image whose second segment is empty and lies over the one byte of its first:
      it parses, and that byte does not come out zero. */
  lemma OverlapBreaksAbi(at: nat, b: Byte) returns (elf: Elf)
    requires b != 0 && at + 0x1000 < TWO64
    ensures Parsed(elf) && !Agree(Segments(elf.image, elf.header, 0))
    ensures Segments(elf.image, elf.header, 0) == [Segment(at, 1, [b]), Segment(at, 1, [])]
    ensures !LoadsPerAbi(Segments(elf.image, elf.header, 0))
  {
    var one, two := Segment(at, 1, [b]), Segment(at, 1, []);
    var segs := [one, two];
    assert segs[0] in segs && segs[1] in segs;
    ContentsOfTwo(one, two);
    elf := EverySegmentList(segs);
    AbiExactly(segs);
    assert Spans(one, at) && Spans(two, at);
  }

  /** `paddr_for_vaddr`. */
  function PaddrForVaddr(elf: Elf, load: nat, v: nat): Option<nat> {
    if elf.start <= v < elf.end then Some(load + (v - elf.start)) else None
  }

  /** After loading, the address computed for a virtual address holds its byte. */
  lemma AddressHoldsByte(now: seq<Byte>, before: seq<Byte>, elf: Elf, load: nat, v: nat)
    requires Parsed(elf) && load + (elf.end - elf.start) <= |now|
    requires Placed(now, before, elf, load, Segments(elf.image, elf.header, 0))
    ensures PaddrForVaddr(elf, load, v).Some? <==> elf.start <= v < elf.end
    ensures PaddrForVaddr(elf, load, v).Some? ==>
              var p := PaddrForVaddr(elf, load, v).value;
              p < |now| && now[p] == LoadedByte(Segments(elf.image, elf.header, 0), v)
  {
  }
}
