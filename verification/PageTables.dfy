/**
The boot page tables (boot/x86-boot-common/src/lib.rs:79-152) and the hardware walk
over them (4-level paging, sections 4.5 and 4.6 of the Intel SDM, volume 3A).  Addresses are
natural numbers below 2^64; shifts and masks by constants are written as division
and remainder, `|` as the bitwise function.
*/
module PageTables {
  import opened Prelude
  import opened Bits
  import opened Align

  // Sizes appear as numbers: a page is 0x1000, a page table covers 0x20_0000, a page
  // directory 0x4000_0000 and a directory pointer table 0x80_0000_0000 bytes.

  const TABLE_FLAGS: nat := 0x3    // present, writable
  const LARGE_FLAGS: nat := 0x83   // present, writable, page size

  type Table = t: seq<nat> | |t| == 512 witness seq(512, _ => 0)

  const ZERO: Table := seq(512, _ => 0)

  // ---- one entry ----------------------------------------------------------------------------

  function Entry(addr: nat, cbit: nat, flags: nat): nat {
    BitOr(BitOr(addr, cbit), flags)
  }

  /** The address field of an entry: bits 51..12 without the encryption bit. */
  function Target(e: nat, cbit: nat): nat {
    BitClear(e / 0x1000 % 0x100_0000_0000 * 0x1000, cbit)
  }

  /** Whether an entry allows writes, user-mode accesses and instruction fetches. */
  datatype Rights = Rights(write: bool, user: bool, fetch: bool)

  /** An access is allowed only if every entry on the way to the page allows it. */
  function Both(a: Rights, b: Rights): Rights {
    Rights(a.write && b.write, a.user && b.user, a.fetch && b.fetch)
  }

  /** What the hardware makes of an entry: the present bit 0, the page-size bit 7, the
      address, and the R/W, U/S and XD bits 1, 2 and 63. */
  datatype PageEntry = Missing | Next(addr: nat, rights: Rights) | Large(addr: nat, rights: Rights)

  function RightsOf(e: nat): Rights {
    Rights(e / 2 % 2 == 1, e / 4 % 2 == 1, e / 0x8000_0000_0000_0000 % 2 == 0)
  }

  function Decode(e: nat, cbit: nat): PageEntry {
    if e % 2 == 0 then Missing
    else if e / 128 % 2 == 1 then Large(Target(e, cbit), RightsOf(e))
    else Next(Target(e, cbit), RightsOf(e))
  }

  /** Writable, supervisor-only, executable. */
  const KERNEL: Rights := Rights(true, false, true)

  predicate Fits(addr: nat, cbit: nat) {
    addr % 0x1000 == 0 && addr + cbit < 0x10_0000_0000_0000 && BitAnd(addr, cbit) == 0
  }

  /** Entries decode to what they were made of. */
  lemma EntryDecodes(addr: nat, cbit: nat)
    requires Fits(addr, cbit) && cbit % 0x1000 == 0
    ensures Decode(Entry(addr, cbit, TABLE_FLAGS), cbit) == Next(addr, KERNEL)
    ensures Decode(Entry(addr, cbit, LARGE_FLAGS), cbit) == Large(addr, KERNEL)
    ensures Decode(0, cbit) == Missing
  {
    var table, large := Entry(addr, cbit, TABLE_FLAGS), Entry(addr, cbit, LARGE_FLAGS);
    EntryFields(table, addr, cbit, TABLE_FLAGS);
    RightsDecode(table, addr, cbit);
    EntryFields(large, addr, cbit, LARGE_FLAGS);
    RightsDecode(large, addr, cbit);
  }

  lemma RightsDecode(e: nat, addr: nat, cbit: nat)
    requires Target(e, cbit) == addr && e % 2 == 1
    requires e / 2 % 2 == 1 && e / 4 % 2 == 0 && e / 0x8000_0000_0000_0000 == 0
    ensures Decode(e, cbit) == if e / 128 % 2 == 1 then Large(addr, KERNEL) else Next(addr, KERNEL)
  {
  }

  lemma EntryFields(e: nat, addr: nat, cbit: nat, flags: nat)
    requires Fits(addr, cbit) && cbit % 0x1000 == 0 && flags < 0x1000 && e == Entry(addr, cbit, flags)
    ensures Target(e, cbit) == addr && e % 2 == flags % 2 && e / 128 % 2 == flags / 128 % 2
    ensures e / 2 % 2 == flags / 2 % 2 && e / 4 % 2 == flags / 4 % 2 && e / 0x8000_0000_0000_0000 == 0
  {
    var m := addr / 0x1000 + cbit / 0x1000;
    EntrySum(addr, cbit, flags);
    assert 0x1000 * m == addr + cbit;
    Fields(e, m, flags);
    TargetOf(e, m, addr, cbit);
  }

  /** Frame number and flags of an entry. */
  lemma Fields(e: nat, m: nat, flags: nat)
    requires e == 0x1000 * m + flags && m < 0x100_0000_0000 && flags < 0x1000
    ensures e / 0x1000 % 0x100_0000_0000 == m && e % 2 == flags % 2 && e / 128 % 2 == flags / 128 % 2
    ensures e / 2 % 2 == flags / 2 % 2 && e / 4 % 2 == flags / 4 % 2 && e / 0x8000_0000_0000_0000 == 0
  {
    AddressField(m, flags);
    FlagFields(m, flags);
    RightFields(m, flags);
  }

  lemma TargetOf(e: nat, m: nat, addr: nat, cbit: nat)
    requires e / 0x1000 % 0x100_0000_0000 == m && m * 0x1000 == addr + cbit && BitAnd(addr, cbit) == 0
    ensures Target(e, cbit) == addr
  {
    ClearAdded(addr, cbit);
  }

  lemma EntrySum(addr: nat, cbit: nat, flags: nat)
    requires Fits(addr, cbit) && cbit % 0x1000 == 0 && flags < 0x1000
    ensures Entry(addr, cbit, flags) == 0x1000 * (addr / 0x1000 + cbit / 0x1000) + flags
  {
    OrDisjoint(addr, cbit);
    AlignedFlags(addr + cbit, flags);
    OrDisjoint(addr + cbit, flags);
  }

  lemma AddressField(m: nat, flags: nat)
    requires m < 0x100_0000_0000 && flags < 0x1000
    ensures (0x1000 * m + flags) / 0x1000 % 0x100_0000_0000 == m
  {
    assert (0x1000 * m + flags) / 0x1000 == m;
    Small(m);
  }

  lemma Small(m: nat)
    requires m < 0x100_0000_0000
    ensures m % 0x100_0000_0000 == m
  {
  }

  lemma FlagFields(m: nat, flags: nat)
    ensures (0x1000 * m + flags) % 2 == flags % 2
    ensures (0x1000 * m + flags) / 128 % 2 == flags / 128 % 2
  {
    var q, r := flags / 128, flags % 128;
    Chunk(32 * m + q, r);
    Parity(16 * m, q);
    Parity(2048 * m, flags);
  }

  lemma RightFields(m: nat, flags: nat)
    ensures (0x1000 * m + flags) / 2 % 2 == flags / 2 % 2
    ensures (0x1000 * m + flags) / 4 % 2 == flags / 4 % 2
  {
    assert (0x1000 * m + flags) / 2 == 0x800 * m + flags / 2;
    assert (0x1000 * m + flags) / 4 == 0x400 * m + flags / 4;
    Parity(0x400 * m, flags / 2);
    Parity(0x200 * m, flags / 4);
  }

  lemma Chunk(q: nat, r: nat)
    requires r < 128
    ensures (128 * q + r) / 128 == q
  {
  }

  lemma Parity(h: nat, x: nat)
    ensures (2 * h + x) % 2 == x % 2
  {
  }

  // ---- the walk -----------------------------------------------------------------------------

  type Pages = map<nat, Table>

  type View = v: seq<PageEntry> | |v| == 512 witness seq(512, _ => Missing)

  type Views = map<nat, View>

  /** The tables as the hardware decodes them. */
  function Decoded(pages: Pages, cbit: nat): Views {
    map p | p in pages :: seq(512, i requires 0 <= i < 512 => Decode(pages[p][i], cbit))
  }

  function Pml4Index(va: nat): (i: nat)
    ensures i < 512
  {
    va / 0x80_0000_0000 % 512
  }

  function PdptIndex(va: nat): (i: nat)
    ensures i < 512
  {
    va / 0x4000_0000 % 512
  }

  function PdIndex(va: nat): (i: nat)
    ensures i < 512
  {
    va / 0x20_0000 % 512
  }

  function PtIndex(va: nat): (i: nat)
    ensures i < 512
  {
    va / 0x1000 % 512
  }

  /** The page an address leads to and what may be done there. */
  datatype Mapping = Mapping(addr: nat, rights: Rights)

  function Under(r: Rights, o: Option<Mapping>): Option<Mapping> {
    match o
    case None => None
    case Some(p) => Some(Mapping(p.addr, Both(r, p.rights)))
  }

  function WalkPt(t: Views, pt: nat, va: nat): Option<Mapping> {
    if pt !in t then None else
      match t[pt][PtIndex(va)]
      case Missing => None
      case Next(a, r) => Some(Mapping(a + va % 0x1000, r))
      case Large(a, r) => Some(Mapping(a + va % 0x1000, r))
  }

  function WalkPd(t: Views, pd: nat, va: nat): Option<Mapping> {
    if pd !in t then None else
      match t[pd][PdIndex(va)]
      case Missing => None
      case Next(a, r) => Under(r, WalkPt(t, a, va))
      case Large(a, r) => Some(Mapping(a / 0x20_0000 * 0x20_0000 + va % 0x20_0000, r))
  }

  function WalkPdpt(t: Views, pdpt: nat, va: nat): Option<Mapping> {
    if pdpt !in t then None else
      match t[pdpt][PdptIndex(va)]
      case Missing => None
      case Next(a, r) => Under(r, WalkPd(t, a, va))
      case Large(a, r) => Some(Mapping(a / 0x4000_0000 * 0x4000_0000 + va % 0x4000_0000, r))
  }

  /** The page-size bit is reserved at the top level. */
  function WalkPml4(t: Views, pml4: nat, va: nat): Option<Mapping> {
    if pml4 !in t then None else
      match t[pml4][Pml4Index(va)]
      case Missing => None
      case Next(a, r) => Under(r, WalkPdpt(t, a, va))
      case Large(_, _) => None
  }

  /** Physical address of `va` and its rights, or nothing if it is not mapped. */
  function Walk(pages: Pages, pml4: nat, cbit: nat, va: nat): Option<Mapping> {
    WalkPml4(Decoded(pages, cbit), pml4, va)
  }

  // ---- what the tables should say -------------------------------------------------------------

  /** A kernel image of pages `vstart..vend` loaded at `load`. */
  datatype Image = Image(load: nat, vstart: nat, vend: nat, cbit: nat)

  /** The image lies in PML4 slot 511 and its physical pages, like the low 512 GiB,
      do not collide with the encryption bit. */
  ghost predicate Sane(m: Image) {
    && m.vstart % 0x1000 == 0 && m.vend % 0x1000 == 0 && m.load % 0x1000 == 0 && m.cbit % 0x1000 == 0
    && 0x1_0000_0000_0000_0000 - 0x80_0000_0000 <= m.vstart < m.vend < 0x1_0000_0000_0000_0000
    && m.load + (m.vend - m.vstart) < 0x1_0000_0000_0000_0000
    && (forall off :: 0 <= off < m.vend - m.vstart && off % 0x1000 == 0 ==> Fits(m.load + off, m.cbit))
    && (forall i :: 0 <= i < 512 ==> Fits(i * 0x4000_0000, m.cbit))
  }

  predicate OnePdptEntry(m: Image)
    requires m.vend > 0
  {
    PdptIndex(m.vstart) == PdptIndex(m.vend - 1)
  }

  predicate Canonical(va: nat) {
    va < 0x1_0000_0000_0000_0000 && (va < 256 * 0x80_0000_0000 || va >= 0x1_0000_0000_0000_0000 - 256 * 0x80_0000_0000)
  }

  /** The address map the boot tables promise. */
  function Expected(m: Image, va: nat): Option<nat> {
    if va < 0x80_0000_0000 then Some(va)
    else if 0x1_0000_0000_0000_0000 - 256 * 0x80_0000_0000 <= va < 0x1_0000_0000_0000_0000 - 255 * 0x80_0000_0000 then
      Some(va - (0x1_0000_0000_0000_0000 - 256 * 0x80_0000_0000))
    else if m.vstart <= va < m.vend then Some(m.load + (va - m.vstart))
    else None
  }

  /** Whatever is mapped can be written and executed by the kernel, and by nobody else. */
  function Granted(o: Option<nat>): Option<Mapping> {
    match o
    case None => None
    case Some(pa) => Some(Mapping(pa, Rights(true, false, true)))
  }

  function FirstPd(m: Image): nat { PdIndex(m.vstart) }

  function LastPd(m: Image): nat
    requires m.vend > 0
  {
    PdIndex(m.vend - 1)
  }

  /** How many 2 MiB pieces the image touches. */
  function Pieces(m: Image): nat
    requires m.vend > 0
  {
    if FirstPd(m) <= LastPd(m) then LastPd(m) - FirstPd(m) + 1 else 0
  }

  /** Virtual address of entry `i` of the `k`-th kernel page table. */
  function PageVaddr(m: Image, k: nat, i: nat): nat {
    m.vstart / 0x20_0000 * 0x20_0000 + k * 0x20_0000 + i * 0x1000
  }

  function KernelEntry(m: Image, k: nat, i: nat): nat {
    var vaddr := PageVaddr(m, k, i);
    if m.vstart <= vaddr < m.vend then Entry(m.load + (vaddr - m.vstart), m.cbit, TABLE_FLAGS) else 0
  }

  function TopEntry(m: Image, low: nat, high: nat, kpdpt: nat, i: nat): nat {
    if i == 0 then Entry(low, m.cbit, TABLE_FLAGS)
    else if i == 256 then Entry(high, m.cbit, TABLE_FLAGS)
    else if i == 511 then Entry(kpdpt, m.cbit, TABLE_FLAGS)
    else 0
  }

  /** The frames of the tables: fixed ones, then one page table per 2 MiB. */
  datatype Frames = Frames(pml4: nat, low: nat, high: nat, kpdpt: nat, pd: nat, pts: seq<nat>)

  ghost predicate FramesFit(f: Frames, cbit: nat) {
    && Fits(f.low, cbit) && Fits(f.high, cbit) && Fits(f.kpdpt, cbit) && Fits(f.pd, cbit)
    && forall k :: 0 <= k < |f.pts| ==> Fits(f.pts[k], cbit)
  }

  ghost predicate FixedBuilt(pages: Pages, m: Image, f: Frames) {
    && f.pml4 in pages && f.low in pages && f.high in pages && f.kpdpt in pages && f.pd in pages
    && (forall i :: 0 <= i < 512 ==> pages[f.pml4][i] == TopEntry(m, f.low, f.high, f.kpdpt, i))
    && (forall i :: 0 <= i < 512 ==> pages[f.low][i] == Entry(i * 0x4000_0000, m.cbit, LARGE_FLAGS))
    && (forall i :: 0 <= i < 512 ==> pages[f.high][i] == Entry(i * 0x4000_0000, m.cbit, LARGE_FLAGS))
    && (forall i :: 0 <= i < 512 ==> pages[f.kpdpt][i] == if i == PdptIndex(m.vstart) then Entry(f.pd, m.cbit, TABLE_FLAGS) else 0)
  }

  /** The directory and page tables of the first `count` 2 MiB pieces. */
  ghost predicate KernelBuilt(pages: Pages, m: Image, f: Frames, count: nat) {
    && f.pd in pages && count <= |f.pts|
    && (forall i :: 0 <= i < 512 ==>
          pages[f.pd][i] == if FirstPd(m) <= i < FirstPd(m) + count then Entry(f.pts[i - FirstPd(m)], m.cbit, TABLE_FLAGS) else 0)
    && (forall k :: 0 <= k < count ==> f.pts[k] in pages)
    && (forall k, i :: 0 <= k < count && 0 <= i < 512 ==> pages[f.pts[k]][i] == KernelEntry(m, k, i))
  }

  /** The same tables as the hardware sees them. */
  ghost predicate FixedView(t: Views, m: Image, f: Frames) {
    && f.pml4 in t && f.low in t && f.high in t && f.kpdpt in t
    && (forall i :: 0 <= i < 512 ==>
          t[f.pml4][i] == if i == 0 then Next(f.low, KERNEL) else if i == 256 then Next(f.high, KERNEL)
                          else if i == 511 then Next(f.kpdpt, KERNEL) else Missing)
    && (forall i :: 0 <= i < 512 ==> t[f.low][i] == Large(i * 0x4000_0000, KERNEL))
    && (forall i :: 0 <= i < 512 ==> t[f.high][i] == Large(i * 0x4000_0000, KERNEL))
    && (forall i :: 0 <= i < 512 ==> t[f.kpdpt][i] == if i == PdptIndex(m.vstart) then Next(f.pd, KERNEL) else Missing)
  }

  ghost predicate KernelView(t: Views, m: Image, f: Frames, count: nat) {
    && f.pd in t && count <= |f.pts|
    && (forall i :: 0 <= i < 512 ==>
          t[f.pd][i] == if FirstPd(m) <= i < FirstPd(m) + count then Next(f.pts[i - FirstPd(m)], KERNEL) else Missing)
    && (forall k :: 0 <= k < count ==> f.pts[k] in t)
    && (forall k, i :: 0 <= k < count && 0 <= i < 512 ==>
          t[f.pts[k]][i] == if m.vstart <= PageVaddr(m, k, i) < m.vend
                            then Next(m.load + (PageVaddr(m, k, i) - m.vstart), KERNEL) else Missing)
  }

  lemma FixedDecodes(pages: Pages, m: Image, f: Frames)
    requires Sane(m) && FramesFit(f, m.cbit) && FixedBuilt(pages, m, f)
    ensures FixedView(Decoded(pages, m.cbit), m, f)
  {
    EntryDecodes(f.low, m.cbit);
    EntryDecodes(f.high, m.cbit);
    EntryDecodes(f.kpdpt, m.cbit);
    EntryDecodes(f.pd, m.cbit);
    forall i | 0 <= i < 512 ensures Decode(Entry(i * 0x4000_0000, m.cbit, LARGE_FLAGS), m.cbit) == Large(i * 0x4000_0000, KERNEL) {
      EntryDecodes(i * 0x4000_0000, m.cbit);
    }
  }

  lemma KernelDecodes(pages: Pages, m: Image, f: Frames, count: nat)
    requires Sane(m) && FramesFit(f, m.cbit) && KernelBuilt(pages, m, f, count)
    ensures KernelView(Decoded(pages, m.cbit), m, f, count)
  {
    EntryDecodes(f.low, m.cbit);
    forall k | 0 <= k < count ensures Decode(Entry(f.pts[k], m.cbit, TABLE_FLAGS), m.cbit) == Next(f.pts[k], KERNEL) {
      EntryDecodes(f.pts[k], m.cbit);
    }
    forall k, i | 0 <= k < count && 0 <= i < 512
      ensures Decode(KernelEntry(m, k, i), m.cbit) ==
              if m.vstart <= PageVaddr(m, k, i) < m.vend
              then Next(m.load + (PageVaddr(m, k, i) - m.vstart), KERNEL) else Missing
    {
      KernelEntryDecodes(m, k, i);
    }
  }

  lemma ImagePageDecodes(m: Image, off: nat)
    requires Sane(m) && off < m.vend - m.vstart && off % 0x1000 == 0
    ensures Decode(Entry(m.load + off, m.cbit, TABLE_FLAGS), m.cbit) == Next(m.load + off, KERNEL)
    ensures Decode(0, m.cbit) == Missing
  {
    assert Fits(m.load + off, m.cbit);
    EntryDecodes(m.load + off, m.cbit);
  }

  lemma PageAligned(m: Image, k: nat, i: nat)
    requires m.vstart % 0x1000 == 0
    ensures (PageVaddr(m, k, i) - m.vstart) % 0x1000 == 0
  {
    assert PageVaddr(m, k, i) == 0x1000 * (m.vstart / 0x20_0000 * 512 + k * 512 + i);
  }

  lemma KernelEntryDecodes(m: Image, k: nat, i: nat)
    requires Sane(m)
    ensures Decode(KernelEntry(m, k, i), m.cbit) ==
            if m.vstart <= PageVaddr(m, k, i) < m.vend
            then Next(m.load + (PageVaddr(m, k, i) - m.vstart), KERNEL) else Missing
  {
    PageAligned(m, k, i);
    if m.vstart <= PageVaddr(m, k, i) < m.vend {
      ImagePageDecodes(m, PageVaddr(m, k, i) - m.vstart);
    }
  }

  // ---- arithmetic of addresses ------------------------------------------------------------------

  lemma Digits(va: nat)
    ensures va == va / 0x80_0000_0000 * 0x80_0000_0000 + PdptIndex(va) * 0x4000_0000 + PdIndex(va) * 0x20_0000
                  + PtIndex(va) * 0x1000 + va % 0x1000
    ensures va % 0x4000_0000 == PdIndex(va) * 0x20_0000 + PtIndex(va) * 0x1000 + va % 0x1000
    ensures va / 0x20_0000 == va / 0x4000_0000 * 512 + PdIndex(va)
    ensures va / 0x4000_0000 == va / 0x80_0000_0000 * 512 + PdptIndex(va)
  {
    var a := va / 0x1000;
    var b := a / 512;
    var c := b / 512;
    assert b == va / 0x20_0000;
    assert c == va / 0x4000_0000;
    assert c / 512 == va / 0x80_0000_0000;
  }

  lemma HighSlots(va: nat)
    requires Canonical(va)
    ensures Pml4Index(va) == 0 <==> va < 0x80_0000_0000
    ensures Pml4Index(va) == 256 <==>
              0x1_0000_0000_0000_0000 - 256 * 0x80_0000_0000 <= va < 0x1_0000_0000_0000_0000 - 255 * 0x80_0000_0000
    ensures Pml4Index(va) == 511 <==> 0x1_0000_0000_0000_0000 - 0x80_0000_0000 <= va
  {
    var q := va / 0x80_0000_0000;
    assert 0x1_0000_0000_0000_0000 == 0x200_0000 * 0x80_0000_0000;
    if va >= 0x1_0000_0000_0000_0000 - 256 * 0x80_0000_0000 {
      assert 0x200_0000 - 256 <= q < 0x200_0000;
      assert q % 512 == q - (0x200_0000 - 512);
    } else {
      assert q < 256;
    }
  }

  // ---- the walk over built tables -----------------------------------------------------------------

  lemma LowOffset(va: nat)
    ensures PdptIndex(va) * 0x4000_0000 + va % 0x4000_0000 == va % 0x80_0000_0000
  {
    Digits(va);
  }

  lemma WalkLarge(t: Views, pdpt: nat, va: nat)
    requires pdpt in t && t[pdpt][PdptIndex(va)] == Large(PdptIndex(va) * 0x4000_0000, KERNEL)
    ensures WalkPdpt(t, pdpt, va) == Some(Mapping(va % 0x80_0000_0000, KERNEL))
  {
    var i := PdptIndex(va);
    LowOffset(va);
    assert (i * 0x4000_0000) / 0x4000_0000 == i;
  }

  /** The two windows onto the low 512 GiB. */
  lemma WalkLinear(t: Views, m: Image, f: Frames, va: nat)
    requires FixedView(t, m, f)
    requires Pml4Index(va) == 0 || Pml4Index(va) == 256
    ensures WalkPml4(t, f.pml4, va) == Some(Mapping(va % 0x80_0000_0000, KERNEL))
  {
    WalkLarge(t, if Pml4Index(va) == 0 then f.low else f.high, va);
  }

  /** An address of the top PML4 slot, index by index. */
  lemma TopDigits(va: nat)
    requires 0x1_0000_0000_0000_0000 - 0x80_0000_0000 <= va < 0x1_0000_0000_0000_0000
    ensures va / 0x4000_0000 == 0x3_FFFF_FE00 + PdptIndex(va)
    ensures va / 0x20_0000 == va / 0x4000_0000 * 512 + PdIndex(va)
    ensures va - va % 0x1000 == va / 0x20_0000 * 0x20_0000 + PtIndex(va) * 0x1000
  {
    Digits(va);
    SameSlot(va);
  }

  lemma Monotone(a: nat, b: nat)
    requires a <= b
    ensures a / 0x4000_0000 <= b / 0x4000_0000 && a / 0x20_0000 <= b / 0x20_0000
  {
  }

  /** Which page of which page table an address of the kernel's gigabyte uses. */
  lemma KernelPage(m: Image, va: nat)
    requires Sane(m) && OnePdptEntry(m)
    requires 0x1_0000_0000_0000_0000 - 0x80_0000_0000 <= va < 0x1_0000_0000_0000_0000
    ensures PdptIndex(va) == PdptIndex(m.vstart) <==> va / 0x4000_0000 == m.vstart / 0x4000_0000
    ensures m.vstart <= va < m.vend ==>
              va / 0x4000_0000 == m.vstart / 0x4000_0000 && FirstPd(m) <= PdIndex(va) <= LastPd(m)
    ensures FirstPd(m) <= LastPd(m)
    ensures va / 0x4000_0000 == m.vstart / 0x4000_0000 && FirstPd(m) <= PdIndex(va) ==>
              PageVaddr(m, PdIndex(va) - FirstPd(m), PtIndex(va)) == va - va % 0x1000
  {
    TopDigits(va);
    TopDigits(m.vstart);
    TopDigits(m.vend - 1);
    Monotone(m.vstart, m.vend - 1);
    if m.vstart <= va < m.vend {
      Monotone(m.vstart, va);
      Monotone(va, m.vend - 1);
    }
    if va / 0x4000_0000 == m.vstart / 0x4000_0000 && FirstPd(m) <= PdIndex(va) {
      PieceStart(va / 0x20_0000, m.vstart / 0x20_0000, PdIndex(va) - FirstPd(m));
    }
  }

  lemma PieceStart(a: nat, b: nat, k: nat)
    requires a == b + k
    ensures b * 0x20_0000 + k * 0x20_0000 == a * 0x20_0000
  {
  }

  lemma SameSlot(va: nat)
    requires 0x1_0000_0000_0000_0000 - 0x80_0000_0000 <= va < 0x1_0000_0000_0000_0000
    ensures va / 0x80_0000_0000 == 0x1FF_FFFF
  {
  }

  lemma InPageRange(m: Image, va: nat)
    requires m.vstart % 0x1000 == 0 && m.vend % 0x1000 == 0
    ensures m.vstart <= va - va % 0x1000 < m.vend <==> m.vstart <= va < m.vend
  {
  }

  lemma WalkKernelPt(t: Views, m: Image, pt: nat, va: nat, page: nat)
    requires page == va - va % 0x1000 && m.vstart % 0x1000 == 0 && m.vend % 0x1000 == 0 && pt in t
    requires t[pt][PtIndex(va)] == if m.vstart <= page < m.vend then Next(m.load + (page - m.vstart), KERNEL) else Missing
    ensures WalkPt(t, pt, va) == if m.vstart <= va < m.vend then Some(Mapping(m.load + (va - m.vstart), KERNEL)) else None
  {
    InPageRange(m, va);
  }

  lemma WalkKernelPd(t: Views, m: Image, f: Frames, va: nat)
    requires Sane(m) && OnePdptEntry(m) && KernelView(t, m, f, Pieces(m))
    requires 0x1_0000_0000_0000_0000 - 0x80_0000_0000 <= va < 0x1_0000_0000_0000_0000 && va / 0x4000_0000 == m.vstart / 0x4000_0000
    ensures WalkPd(t, f.pd, va) == if m.vstart <= va < m.vend then Some(Mapping(m.load + (va - m.vstart), KERNEL)) else None
  {
    KernelPage(m, va);
    var i2 := PdIndex(va);
    if FirstPd(m) <= i2 <= LastPd(m) {
      var k := i2 - FirstPd(m);
      WalkKernelPt(t, m, f.pts[k], va, PageVaddr(m, k, PtIndex(va)));
    }
  }

  lemma WalkKernel(t: Views, m: Image, f: Frames, va: nat)
    requires Sane(m) && OnePdptEntry(m) && FixedView(t, m, f) && KernelView(t, m, f, Pieces(m))
    requires 0x1_0000_0000_0000_0000 - 0x80_0000_0000 <= va < 0x1_0000_0000_0000_0000 && Pml4Index(va) == 511
    ensures WalkPml4(t, f.pml4, va) == if m.vstart <= va < m.vend then Some(Mapping(m.load + (va - m.vstart), KERNEL)) else None
  {
    KernelPage(m, va);
    if va / 0x4000_0000 == m.vstart / 0x4000_0000 {
      WalkKernelPd(t, m, f, va);
    }
  }

  /** Tables built as described translate every canonical address as promised, writable and
      for the kernel only, and translate nothing else. */
  lemma WalkBuilt(pages: Pages, m: Image, f: Frames, va: nat)
    requires Sane(m) && OnePdptEntry(m) && FramesFit(f, m.cbit) && FixedBuilt(pages, m, f)
    requires KernelBuilt(pages, m, f, Pieces(m))
    requires Canonical(va)
    ensures Walk(pages, f.pml4, m.cbit, va) == Granted(Expected(m, va))
  {
    var t := Decoded(pages, m.cbit);
    FixedDecodes(pages, m, f);
    KernelDecodes(pages, m, f, Pieces(m));
    WalkView(t, m, f, va);
  }

  lemma WalkView(t: Views, m: Image, f: Frames, va: nat)
    requires Sane(m) && OnePdptEntry(m) && FixedView(t, m, f) && KernelView(t, m, f, Pieces(m))
    requires Canonical(va)
    ensures WalkPml4(t, f.pml4, va) == Granted(Expected(m, va))
  {
    HighSlots(va);
    var i4 := Pml4Index(va);
    if i4 == 0 || i4 == 256 {
      WalkLinear(t, m, f, va);
      LinearOffset(va);
    } else if i4 == 511 {
      WalkKernel(t, m, f, va);
    }
  }

  lemma LinearOffset(va: nat)
    ensures va < 0x80_0000_0000 ==> va % 0x80_0000_0000 == va
    ensures 0x1_0000_0000_0000_0000 - 256 * 0x80_0000_0000 <= va < 0x1_0000_0000_0000_0000 - 255 * 0x80_0000_0000 ==>
              va % 0x80_0000_0000 == va - (0x1_0000_0000_0000_0000 - 256 * 0x80_0000_0000)
  {
    assert 0x1_0000_0000_0000_0000 - 256 * 0x80_0000_0000 == 0x1FF_FF00 * 0x80_0000_0000;
    if 0x1_0000_0000_0000_0000 - 256 * 0x80_0000_0000 <= va < 0x1_0000_0000_0000_0000 - 255 * 0x80_0000_0000 {
      assert va / 0x80_0000_0000 == 0x1FF_FF00;
    }
  }

  // ---- build_page_tables --------------------------------------------------------------------------

  datatype PagingError = OutOfPages | KernelSpansMultiplePdptEntries(start: nat, end: nat)

  function ImageOf(load: nat, range: (nat, nat), cbit: nat): Image {
    Image(load, range.0 / 0x1000 * 0x1000, AlignUp(range.1, 0x1000), cbit)
  }

  /** The kernel's addresses: each page of the top PML4 slot that holds a byte of the given
      range is mapped, and no other; the page of the first byte is at `load`. */
  lemma KernelMapped(load: nat, range: (nat, nat), cbit: nat, va: nat)
    requires range.0 < range.1 && 0x1_0000_0000_0000_0000 - 0x80_0000_0000 <= va < 0x1_0000_0000_0000_0000
    ensures Expected(ImageOf(load, range, cbit), va) ==
            if range.0 / 0x1000 <= va / 0x1000 <= (range.1 - 1) / 0x1000
            then Some(load + (va - (range.0 - range.0 % 0x1000))) else None
  {
    assert AlignUp(range.1, 0x1000) == ((range.1 - 1) / 0x1000 + 1) * 0x1000 by {
      RoundsUp(range.1 - 1);
    }
    PageOf(va, range.0 / 0x1000);
    PageOf(va, (range.1 - 1) / 0x1000 + 1);
  }

  lemma RoundsUp(x: nat)
    ensures AlignUp(x + 1, 0x1000) == (x / 0x1000 + 1) * 0x1000
  {
    var q, r := x / 0x1000, x % 0x1000;
    assert x + 1 == 0x1000 * q + (r + 1);
  }

  lemma PageOf(va: nat, page: nat)
    ensures page * 0x1000 <= va <==> page <= va / 0x1000
  {
  }

  /** 64-bit wrapping arithmetic reaches the frame of page `vaddr` even when its
      2 MiB piece starts below the image. */
  lemma WrappedFrame(load: nat, base: nat, vstart: nat, off: nat)
    requires base < 0x1_0000_0000_0000_0000 && vstart < 0x1_0000_0000_0000_0000 && vstart <= base + off
    requires load + (base + off - vstart) < 0x1_0000_0000_0000_0000
    ensures ((load + (base - vstart) % 0x1_0000_0000_0000_0000) % 0x1_0000_0000_0000_0000 + off) % 0x1_0000_0000_0000_0000 ==
            load + (base + off - vstart)
  {
    if base >= vstart {
      assert (base - vstart) % 0x1_0000_0000_0000_0000 == base - vstart;
    } else {
      assert (base - vstart) % 0x1_0000_0000_0000_0000 == base - vstart + 0x1_0000_0000_0000_0000;
      assert (load + (base - vstart) + 0x1_0000_0000_0000_0000) % 0x1_0000_0000_0000_0000 ==
             (load + (base - vstart)) % 0x1_0000_0000_0000_0000;
    }
  }

  lemma PtEntry(m: Image, k: nat, i: nat, base: nat, pageBase: nat)
    requires Sane(m) && base < 0x1_0000_0000_0000_0000
    requires base == m.vstart / 0x20_0000 * 0x20_0000 + k * 0x20_0000
    requires pageBase == (m.load + (base - m.vstart) % 0x1_0000_0000_0000_0000) % 0x1_0000_0000_0000_0000
    ensures var vaddr := base + i * 0x1000;
            KernelEntry(m, k, i) ==
            if m.vstart <= vaddr < m.vend
            then Entry((pageBase + i * 0x1000) % 0x1_0000_0000_0000_0000, m.cbit, TABLE_FLAGS) else 0
  {
    if m.vstart <= base + i * 0x1000 < m.vend {
      WrappedFrame(m.load, base, m.vstart, i * 0x1000);
    }
  }

  class BootMemory {
    const pool: seq<nat>   // frames the allocator hands out, in order
    var next: nat
    var pages: Pages

    ghost predicate Valid(cbit: nat)
      reads this
    {
      && next <= |pool|
      && (forall i, j :: 0 <= i < j < |pool| ==> pool[i] != pool[j])
      && (forall i :: 0 <= i < |pool| ==> Fits(pool[i], cbit))
    }

    constructor (pool: seq<nat>)
      ensures this.pool == pool && next == 0 && pages == map[]
    {
      this.pool := pool;
      next := 0;
      pages := map[];
    }

    method AllocPage() returns (r: Option<nat>)
      requires next <= |pool|
      modifies this`next
      ensures old(next) == |pool| ==> r == None && next == old(next)
      ensures old(next) < |pool| ==> r == Some(pool[old(next)]) && next == old(next) + 1
    {
      if next >= |pool| {
        return None;
      }
      r := Some(pool[next]);
      next := next + 1;
    }

    method Set(page: nat, i: nat, e: nat)
      requires page in pages && i < 512
      modifies this`pages
      ensures pages == old(pages)[page := old(pages)[page][i := e]]
    {
      pages := pages[page := pages[page][i := e]];
    }

    /** Both windows: entry `i` is the 1 GiB page at `i << 30`. */
    method FillLinear(low: nat, high: nat, cbit: nat)
      requires low in pages && high in pages && low != high
      modifies this`pages
      ensures low in pages && high in pages && pages == old(pages)[low := pages[low]][high := pages[high]]
      ensures forall i :: 0 <= i < 512 ==> pages[low][i] == pages[high][i] == Entry(i * 0x4000_0000, cbit, LARGE_FLAGS)
    {
      for i := 0 to 512
        invariant low in pages && high in pages
        invariant pages == old(pages)[low := pages[low]][high := pages[high]]
        invariant forall j :: 0 <= j < i ==> pages[low][j] == pages[high][j] == Entry(j * 0x4000_0000, cbit, LARGE_FLAGS)
      {
        var entry := Entry(i * 0x4000_0000, cbit, LARGE_FLAGS);
        Set(low, i, entry);
        Set(high, i, entry);
      }
    }

    /** The page table of the `k`-th 2 MiB piece of the image. */
    method FillPt(pt: nat, m: Image, k: nat)
      requires Sane(m) && pt in pages && pages[pt] == ZERO && PageVaddr(m, k, 0) < 0x1_0000_0000_0000_0000
      modifies this`pages
      ensures pt in pages && pages == old(pages)[pt := pages[pt]]
      ensures forall i :: 0 <= i < 512 ==> pages[pt][i] == KernelEntry(m, k, i)
    {
      var base := m.vstart / 0x20_0000 * 0x20_0000 + k * 0x20_0000;
      var pageBase := (m.load + (base - m.vstart) % 0x1_0000_0000_0000_0000) % 0x1_0000_0000_0000_0000;
      for i := 0 to 512
        invariant pt in pages && pages == old(pages)[pt := pages[pt]]
        invariant forall j :: 0 <= j < 512 ==> pages[pt][j] == if j < i then KernelEntry(m, k, j) else 0
      {
        var vaddr := base + i * 0x1000;
        PtEntry(m, k, i, base, pageBase);
        if m.vstart <= vaddr < m.vend {
          Set(pt, i, Entry((pageBase + i * 0x1000) % 0x1_0000_0000_0000_0000, m.cbit, TABLE_FLAGS));
        }
      }
    }

    /** The directory and the page tables of the kernel image; `k` pieces are done. */
    method FillKernel(m: Image, ghost f: Frames, pd: nat) returns (ok: bool)
      requires Valid(m.cbit) && Sane(m) && OnePdptEntry(m)
      requires f.pd == pd && f.pts == pool[next..] && KernelBuilt(pages, m, f, 0) && FixedBuilt(pages, m, f)
      requires forall k :: 0 <= k < |f.pts| ==> f.pts[k] !in {f.pml4, f.low, f.high, f.kpdpt, f.pd}
      requires f.pd !in {f.pml4, f.low, f.high, f.kpdpt}
      modifies this
      ensures Valid(m.cbit)
      ensures ok <==> Pieces(m) <= |f.pts|
      ensures ok ==> KernelBuilt(pages, m, f, Pieces(m)) && FixedBuilt(pages, m, f)
    {
      KernelPage(m, m.vstart);
      var first, last := FirstPd(m), LastPd(m);
      var pdIdx := first;
      ghost var base := next;
      assert forall i :: 0 <= i < |f.pts| ==> f.pts[i] == pool[base + i];
      while pdIdx <= last
        invariant first <= pdIdx <= last + 1 && Valid(m.cbit)
        invariant next == base + (pdIdx - first)
        invariant KernelBuilt(pages, m, f, pdIdx - first) && FixedBuilt(pages, m, f)
      {
        var ok := NextPiece(m, f, pd, pdIdx - first);
        if !ok {
          return false;
        }
        pdIdx := pdIdx + 1;
      }
      return true;
    }

    /** One turn of that loop, if a page is left for it. */
    method NextPiece(m: Image, ghost f: Frames, pd: nat, k: nat) returns (ok: bool)
      requires Sane(m) && OnePdptEntry(m) && k < Pieces(m) && k <= |f.pts| && f.pd == pd
      requires next <= |pool| && |pool| - next == |f.pts| - k && (k < |f.pts| ==> f.pts[k] == pool[next])
      requires forall i, j :: 0 <= i < j < |f.pts| ==> f.pts[i] != f.pts[j]
      requires forall i :: 0 <= i < |f.pts| ==> f.pts[i] !in {f.pml4, f.low, f.high, f.kpdpt, f.pd}
      requires f.pd !in {f.pml4, f.low, f.high, f.kpdpt}
      requires KernelBuilt(pages, m, f, k) && FixedBuilt(pages, m, f)
      modifies this
      ensures (ok <==> k < |f.pts|) && next <= |pool|
      ensures ok ==> next == old(next) + 1 && KernelBuilt(pages, m, f, k + 1) && FixedBuilt(pages, m, f)
    {
      var pt := AllocPage();
      if pt.None? {
        return false;
      }
      AddPiece(m, f, pd, pt.value, k);
      return true;
    }

    /** A zeroed page table is entered in the directory and filled. */
    method AddPiece(m: Image, ghost f: Frames, pd: nat, pt: nat, k: nat)
      requires Sane(m) && OnePdptEntry(m) && k < Pieces(m) && k < |f.pts| && f.pts[k] == pt && f.pd == pd
      requires forall i, j :: 0 <= i < j < |f.pts| ==> f.pts[i] != f.pts[j]
      requires forall i :: 0 <= i < |f.pts| ==> f.pts[i] != f.pd
      requires pt !in {f.pml4, f.low, f.high, f.kpdpt, f.pd} && f.pd !in {f.pml4, f.low, f.high, f.kpdpt}
      requires KernelBuilt(pages, m, f, k) && FixedBuilt(pages, m, f)
      modifies this`pages
      ensures KernelBuilt(pages, m, f, k + 1) && FixedBuilt(pages, m, f)
    {
      ghost var was := pages;
      PieceBelowTop(m, k);
      pages := pages[pt := ZERO];
      Set(pd, FirstPd(m) + k, Entry(pt, m.cbit, TABLE_FLAGS));
      FillPt(pt, m, k);
      PieceAdded(was, pages, m, f, k);
      FixedKept(was, pages, m, f);
    }

    /** `build_page_tables`: it fails exactly when frames run out or the image
        crosses a 1 GiB boundary; otherwise every canonical address is translated as
        promised and no other address is mapped. */
    method BuildPageTables(load: nat, range: (nat, nat), cbit: nat) returns (r: Result<nat, PagingError>)
      requires Valid(cbit) && Sane(ImageOf(load, range, cbit))
      modifies this
      ensures var m := ImageOf(load, range, cbit);
              var free := |pool| - old(next);
              && (r.Err? && r.error.OutOfPages? <==> free < 5 || (OnePdptEntry(m) && free < 5 + Pieces(m)))
              && (free >= 5 && !OnePdptEntry(m) <==> r == Err(KernelSpansMultiplePdptEntries(m.vstart, m.vend)))
              && (r.Ok? ==> forall va :: Canonical(va) ==> Walk(pages, r.value, cbit, va) == Granted(Expected(m, va)))
    {
      var pml4 := AllocPage();
      if pml4.None? { return Err(OutOfPages); }
      var low := AllocPage();
      if low.None? { return Err(OutOfPages); }
      var high := AllocPage();
      if high.None? { return Err(OutOfPages); }
      var kpdpt := AllocPage();
      if kpdpt.None? { return Err(OutOfPages); }
      var pd := AllocPage();
      if pd.None? { return Err(OutOfPages); }
      r := BuildTables(ImageOf(load, range, cbit), pml4.value, low.value, high.value, kpdpt.value, pd.value);
    }

    /** The same once the five fixed tables have their pages. */
    method BuildTables(m: Image, pml4: nat, low: nat, high: nat, kpdpt: nat, pd: nat) returns (r: Result<nat, PagingError>)
      requires Valid(m.cbit) && Sane(m) && |{pml4, low, high, kpdpt, pd}| == 5
      requires Fits(pml4, m.cbit) && Fits(low, m.cbit) && Fits(high, m.cbit) && Fits(kpdpt, m.cbit) && Fits(pd, m.cbit)
      requires pd !in {pml4, low, high, kpdpt} && forall k :: next <= k < |pool| ==> pool[k] !in {pml4, low, high, kpdpt, pd}
      modifies this
      ensures r.Err? && r.error.OutOfPages? <==> OnePdptEntry(m) && |pool| - old(next) < Pieces(m)
      ensures !OnePdptEntry(m) <==> r == Err(KernelSpansMultiplePdptEntries(m.vstart, m.vend))
      ensures r.Ok? ==> forall va :: Canonical(va) ==> Walk(pages, r.value, m.cbit, va) == Granted(Expected(m, va))
    {
      ghost var f := Frames(pml4, low, high, kpdpt, pd, pool[next..]);
      assert forall k :: 0 <= k < |f.pts| ==> f.pts[k] == pool[next + k];
      BuildFixed(m, f, pml4, low, high, kpdpt, pd);
      if PdptIndex(m.vstart) != PdptIndex(m.vend - 1) {
        return Err(KernelSpansMultiplePdptEntries(m.vstart, m.vend));
      }
      Set(kpdpt, PdptIndex(m.vstart), Entry(pd, m.cbit, TABLE_FLAGS));
      var ok := FillKernel(m, f, pd);
      if !ok {
        return Err(OutOfPages);
      }
      forall va | Canonical(va) ensures Walk(pages, pml4, m.cbit, va) == Granted(Expected(m, va)) {
        WalkBuilt(pages, m, f, va);
      }
      return Ok(pml4);
    }

    /** Zeroes the five fixed tables, links them and fills the linear windows. */
    method BuildFixed(m: Image, ghost f: Frames, pml4: nat, low: nat, high: nat, kpdpt: nat, pd: nat)
      requires f.pml4 == pml4 && f.low == low && f.high == high && f.kpdpt == kpdpt && f.pd == pd
      requires |{pml4, low, high, kpdpt, pd}| == 5
      modifies this`pages
      ensures KernelBuilt(pages, m, f, 0) && kpdpt in pages && pages[kpdpt] == ZERO
      ensures FixedBuilt(pages[kpdpt := ZERO[PdptIndex(m.vstart) := Entry(pd, m.cbit, TABLE_FLAGS)]], m, f)
    {
      pages := pages[pml4 := ZERO][low := ZERO][high := ZERO][kpdpt := ZERO][pd := ZERO];
      Set(pml4, 0, Entry(low, m.cbit, TABLE_FLAGS));
      Set(pml4, 256, Entry(high, m.cbit, TABLE_FLAGS));
      Set(pml4, 511, Entry(kpdpt, m.cbit, TABLE_FLAGS));
      FillLinear(low, high, m.cbit);
    }
  }

  /** Every 2 MiB piece of the image starts below 2^64. */
  lemma PieceBelowTop(m: Image, k: nat)
    requires Sane(m) && OnePdptEntry(m) && k < Pieces(m)
    ensures PageVaddr(m, k, 0) < 0x1_0000_0000_0000_0000 && FirstPd(m) + k < 512
  {
    KernelPage(m, m.vstart);
    Digits(m.vstart);
    Digits(m.vend - 1);
    SameSlot(m.vstart);
    SameSlot(m.vend - 1);
    assert m.vstart / 0x20_0000 + k <= (m.vend - 1) / 0x20_0000;
  }

  lemma FixedKept(was: Pages, pages: Pages, m: Image, f: Frames)
    requires FixedBuilt(was, m, f) && f.pd in pages
    requires forall p :: p in {f.pml4, f.low, f.high, f.kpdpt} ==> p in pages && pages[p] == was[p]
    ensures FixedBuilt(pages, m, f)
  {
  }

  lemma PieceAdded(was: Pages, pages: Pages, m: Image, f: Frames, k: nat)
    requires KernelBuilt(was, m, f, k) && k < |f.pts| && FirstPd(m) + k < 512
    requires forall i, j :: 0 <= i < j < |f.pts| ==> f.pts[i] != f.pts[j]
    requires forall i :: 0 <= i < |f.pts| ==> f.pts[i] != f.pd
    requires f.pd in pages && pages[f.pd] == was[f.pd][FirstPd(m) + k := Entry(f.pts[k], m.cbit, TABLE_FLAGS)]
    requires f.pts[k] in pages && forall i :: 0 <= i < 512 ==> pages[f.pts[k]][i] == KernelEntry(m, k, i)
    requires forall p :: p in was && p != f.pd && p != f.pts[k] ==> p in pages && pages[p] == was[p]
    ensures KernelBuilt(pages, m, f, k + 1)
  {
    forall q, i | 0 <= q < k + 1 && 0 <= i < 512
      ensures f.pts[q] in pages && pages[f.pts[q]][i] == KernelEntry(m, q, i)
    {
    }
  }
}
