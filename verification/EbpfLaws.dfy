/**
What single instructions do to registers, stack and program counter, opcode by opcode in
numbers: congruences modulo 2^64, two's complement readings and bytes, apart from the
functions by which EbpfSpec computes them (sections 4.1, 4.3, 5.1 and 5.4 of RFC 9669).
*/
module EbpfLaws {
  import opened Prelude
  import opened Bits
  import opened Bytes
  import opened EbpfInsn
  import opened EbpfSpec

  /** `a` and `b` differ by a multiple of 2^64. */
  ghost predicate Congruent(a: int, b: int) {
    exists q: int :: a - b == q * 0x1_0000_0000_0000_0000
  }

  ghost predicate Congruent32(a: int, b: int) {
    exists q: int :: a - b == q * 0x1_0000_0000
  }

  /** A word read as a two's complement number. */
  function SignedWord(w: Word): int {
    if w < 0x8000_0000_0000_0000 then w else w - 0x1_0000_0000_0000_0000
  }

  /** Only register `r` changed, and the next instruction follows. */
  ghost predicate OnlyReg(s: State, o: Outcome, r: nat, next: int) {
    && o.Next? && o.state.stack == s.stack && o.state.pc == next
    && forall k :: 0 <= k < 11 && k != r ==> o.state.regs[k] == s.regs[k]
  }

  lemma ModCongruent(v: int)
    ensures Congruent(v % 0x1_0000_0000_0000_0000, v)
  {
    var q := v / 0x1_0000_0000_0000_0000;
    assert v % 0x1_0000_0000_0000_0000 - v == -q * 0x1_0000_0000_0000_0000;
  }

  lemma ModCongruent32(v: int)
    ensures Congruent32(v % 0x1_0000_0000, v)
  {
    var q := v / 0x1_0000_0000;
    assert v % 0x1_0000_0000 - v == -q * 0x1_0000_0000;
  }

  /** A word is told by what it is congruent to. */
  lemma CongruentOnce(a: Word, b: Word, v: int)
    requires Congruent(a, v) && Congruent(b, v)
    ensures a == b
  {
    var p: int :| a - v == p * 0x1_0000_0000_0000_0000;
    var q: int :| b - v == q * 0x1_0000_0000_0000_0000;
    assert a - b == (p - q) * 0x1_0000_0000_0000_0000;
  }

  /** The sign-extended form of a 32-bit number reads as that number. */
  lemma ExtendReads(v: int)
    requires -0x8000_0000 <= v < 0x8000_0000
    ensures SignedWord(Extend(v)) == v && forall w: Word :: SignedWord(w) == v ==> w == Extend(v)
  {
    if v < 0 {
      assert v % 0x1_0000_0000_0000_0000 == v + 0x1_0000_0000_0000_0000;
    }
  }

  // ---- arithmetic -----------------------------------------------------------------------------

  /** `add64`: the register grows by the signed immediate or by the source register, modulo 2^64. */
  lemma AddLaw(env: Env, s: State)
    requires env.Valid() && s.pc < env.Slots() && Fetch(env.prog, s.pc).opc in {0x07, 0x0f}
    ensures var i, o := Fetch(env.prog, s.pc), Step(env, s);
            && (i.dst >= 11 ==> o == Fail(InvalidRegister(i.dst)))
            && (i.dst < 11 && i.opc == 0x0f && i.src >= 11 ==> o == Fail(InvalidRegister(i.src)))
            && (i.dst < 11 && (i.opc == 0x07 || i.src < 11) ==>
                  && OnlyReg(s, o, i.dst, s.pc + 1)
                  && Congruent(o.state.regs[i.dst], s.regs[i.dst] + if i.opc == 0x07 then i.imm else s.regs[i.src]))
  {
    var i := Fetch(env.prog, s.pc);
    if i.dst < 11 && (i.opc == 0x07 || i.src < 11) {
      ModCongruent(s.regs[i.dst] + if i.opc == 0x07 then i.imm else s.regs[i.src]);
    }
  }

  /** `mov64`: the register reads as the signed immediate, or is the source register. */
  lemma MovLaw(env: Env, s: State)
    requires env.Valid() && s.pc < env.Slots() && Fetch(env.prog, s.pc).opc in {0xb7, 0xbf}
    ensures var i, o := Fetch(env.prog, s.pc), Step(env, s);
            && (i.dst >= 11 ==> o == Fail(InvalidRegister(i.dst)))
            && (i.dst < 11 && i.opc == 0xbf && i.src >= 11 ==> o == Fail(InvalidRegister(i.src)))
            && (i.dst < 11 && i.opc == 0xb7 ==>
                  OnlyReg(s, o, i.dst, s.pc + 1) && SignedWord(o.state.regs[i.dst]) == i.imm)
            && (i.dst < 11 && i.opc == 0xbf && i.src < 11 ==>
                  OnlyReg(s, o, i.dst, s.pc + 1) && o.state.regs[i.dst] == s.regs[i.src])
  {
    ExtendReads(Fetch(env.prog, s.pc).imm);
  }

  // ---- wide immediates ------------------------------------------------------------------------

  /** `lddw`: low half from this slot, high half from the next, which is skipped. */
  lemma WideLaw(env: Env, s: State)
    requires env.Valid() && s.pc < env.Slots() && Fetch(env.prog, s.pc).opc == 0x18 && Fetch(env.prog, s.pc).src != 2
    ensures var i, o := Fetch(env.prog, s.pc), Step(env, s);
            && (i.dst >= 11 ==> o == Fail(InvalidRegister(i.dst)))
            && (i.dst < 11 && s.pc + 1 == env.Slots() ==> o == Fail(IncompleteWideImmediate))
            && (i.dst < 11 && s.pc + 1 < env.Slots() ==>
                  && OnlyReg(s, o, i.dst, s.pc + 2)
                  && Congruent32(o.state.regs[i.dst] % 0x1_0000_0000, i.imm)
                  && Congruent32(o.state.regs[i.dst] / 0x1_0000_0000, Fetch(env.prog, s.pc + 1).imm))
  {
    var i := Fetch(env.prog, s.pc);
    if i.dst < 11 && s.pc + 1 < env.Slots() {
      var j := Fetch(env.prog, s.pc + 1);
      ModCongruent32(i.imm);
      ModCongruent32(j.imm);
      HalvesOf(j.imm % 0x1_0000_0000, i.imm % 0x1_0000_0000);
    }
  }

  lemma HalvesOf(high: nat, low: nat)
    requires low < 0x1_0000_0000
    ensures (0x1_0000_0000 * high + low) % 0x1_0000_0000 == low && (0x1_0000_0000 * high + low) / 0x1_0000_0000 == high
  {
  }

  /** `k` is the first region of `rs` with this id. */
  ghost predicate FirstWith(rs: seq<ReadOnly>, id: int, k: int) {
    0 <= k < |rs| && rs[k].id == id && forall j :: 0 <= j < k ==> rs[j].id != id
  }

  lemma {:induction false} RegionFound(rs: seq<ReadOnly>, id: nat, offset: nat, k: int)
    requires FirstWith(rs, id, k)
    ensures RegionAddr(rs, id, offset) ==
            if offset <= |rs[k].bytes| && rs[k].base + offset < 0x1_0000_0000_0000_0000 then Some(rs[k].base + offset) else None
  {
    if k > 0 {
      assert FirstWith(rs[1..], id, k - 1);
      RegionFound(rs[1..], id, offset, k - 1);
    }
  }

  lemma {:induction false} RegionMissing(rs: seq<ReadOnly>, id: nat, offset: nat)
    requires forall k :: 0 <= k < |rs| ==> rs[k].id != id
    ensures RegionAddr(rs, id, offset) == None
  {
    if rs != [] {
      RegionMissing(rs[1..], id, offset);
    }
  }

  /** `lddw` with the map-value mark: the address at the next slot's offset into the first
      region with this slot's id, if there is one and the offset lies in it. */
  lemma MapValueLaw(env: Env, s: State)
    requires env.Valid() && s.pc + 1 < env.Slots() && Fetch(env.prog, s.pc).opc == 0x18 && Fetch(env.prog, s.pc).src == 2
    requires Fetch(env.prog, s.pc).dst < 11
    ensures var i, j, o := Fetch(env.prog, s.pc), Fetch(env.prog, s.pc + 1), Step(env, s);
            var rs, id, offset := env.readOnly, i.imm % 0x1_0000_0000, j.imm % 0x1_0000_0000;
            && (forall k :: FirstWith(rs, id, k) ==>
                  if offset <= |rs[k].bytes| && rs[k].base + offset < 0x1_0000_0000_0000_0000
                  then OnlyReg(s, o, i.dst, s.pc + 2) && o.state.regs[i.dst] == rs[k].base + offset
                  else o == Fail(MemoryOutOfBounds))
            && ((forall k :: 0 <= k < |rs| ==> rs[k].id != id) ==> o == Fail(MemoryOutOfBounds))
  {
    var i, j := Fetch(env.prog, s.pc), Fetch(env.prog, s.pc + 1);
    var id, offset := i.imm % 0x1_0000_0000, j.imm % 0x1_0000_0000;
    forall k | FirstWith(env.readOnly, id, k)
      ensures RegionAddr(env.readOnly, id, offset) ==
              if offset <= |env.readOnly[k].bytes| && env.readOnly[k].base + offset < 0x1_0000_0000_0000_0000
              then Some(env.readOnly[k].base + offset) else None
    {
      RegionFound(env.readOnly, id, offset, k);
    }
    if forall k :: 0 <= k < |env.readOnly| ==> env.readOnly[k].id != id {
      RegionMissing(env.readOnly, id, offset);
    }
  }

  // ---- memory ---------------------------------------------------------------------------------

  /** Bytes moved by the load and store opcodes. */
  function OpWidth(opc: Byte): nat {
    if opc in {0x71, 0x72, 0x73} then 1
    else if opc in {0x69, 0x6a, 0x6b} then 2
    else if opc in {0x61, 0x62, 0x63} then 4
    else 8
  }

  /** `k` is the first region that holds `len` bytes at `addr`. */
  ghost predicate FirstHolding(rs: seq<ReadOnly>, addr: nat, len: nat, k: int) {
    && 0 <= k < |rs| && rs[k].base <= addr && addr + len <= rs[k].base + |rs[k].bytes| < 0x1_0000_0000_0000_0000
    && forall j :: 0 <= j < k ==>
         !(rs[j].base <= addr && addr + len <= rs[j].base + |rs[j].bytes| < 0x1_0000_0000_0000_0000)
  }

  lemma {:induction false} RegionRead(rs: seq<ReadOnly>, addr: nat, len: nat, k: int)
    requires FirstHolding(rs, addr, len, k)
    ensures ReadRegions(rs, addr, len) == Some(rs[k].bytes[addr - rs[k].base..addr - rs[k].base + len])
  {
    if k > 0 {
      assert FirstHolding(rs[1..], addr, len, k - 1);
      RegionRead(rs[1..], addr, len, k - 1);
    }
  }

  /** Reads: the stack's 512 bytes first, then the first region that holds the whole range. */
  lemma ReadLaw(env: Env, stack: Stack, addr: nat, len: nat)
    ensures env.stackBase <= addr && addr + len <= env.stackBase + 512 ==>
              ReadMemory(env, stack, addr, len) == Some(stack[addr - env.stackBase..addr - env.stackBase + len])
    ensures !(env.stackBase <= addr && addr + len <= env.stackBase + 512) ==>
              forall k :: FirstHolding(env.readOnly, addr, len, k) ==>
                ReadMemory(env, stack, addr, len) ==
                Some(env.readOnly[k].bytes[addr - env.readOnly[k].base..addr - env.readOnly[k].base + len])
    ensures !(env.stackBase <= addr && addr + len <= env.stackBase + 512)
            && (forall r :: r in env.readOnly ==> !(r.base <= addr && addr + len <= r.base + |r.bytes| < 0x1_0000_0000_0000_0000)) ==>
              ReadMemory(env, stack, addr, len) == None
  {
    if !(env.stackBase <= addr && addr + len <= env.stackBase + 512) {
      assert ReadMemory(env, stack, addr, len) == ReadRegions(env.readOnly, addr, len);
      RegionsStayInside(env.readOnly, addr, len);
      forall k | FirstHolding(env.readOnly, addr, len, k)
        ensures ReadRegions(env.readOnly, addr, len) ==
                Some(env.readOnly[k].bytes[addr - env.readOnly[k].base..addr - env.readOnly[k].base + len])
      {
        RegionRead(env.readOnly, addr, len, k);
      }
    }
  }

  /** `ldx`: the bytes at the source register plus offset, least significant first. */
  lemma LoadLaw(env: Env, s: State, addr: Word)
    requires env.Valid() && s.pc < env.Slots() && Fetch(env.prog, s.pc).opc in {0x71, 0x69, 0x61, 0x79}
    requires Fetch(env.prog, s.pc).dst < 11 && Fetch(env.prog, s.pc).src < 11
    requires Congruent(addr, s.regs[Fetch(env.prog, s.pc).src] + Fetch(env.prog, s.pc).off)
    ensures var i, o := Fetch(env.prog, s.pc), Step(env, s);
            var got := ReadMemory(env, s.stack, addr, OpWidth(i.opc));
            && (got.None? ==> o == Fail(MemoryOutOfBounds))
            && (got.Some? ==> OnlyReg(s, o, i.dst, s.pc + 1) && o.state.regs[i.dst] == Number(got.value))
  {
    var i := Fetch(env.prog, s.pc);
    ModCongruent(s.regs[i.src] + i.off);
    CongruentOnce(addr, WrapAdd(s.regs[i.src], i.off), s.regs[i.src] + i.off);
  }

  /** `st` and `stx`: exactly the bytes at the destination register plus offset change, to
      the low bytes of the value, least significant first; elsewhere than on the stack it fails. */
  lemma StoreLaw(env: Env, s: State, addr: Word, value: Word)
    requires env.Valid() && s.pc < env.Slots()
    requires Fetch(env.prog, s.pc).opc in {0x72, 0x6a, 0x62, 0x7a, 0x73, 0x6b, 0x63, 0x7b} && Fetch(env.prog, s.pc).dst < 11
    requires Congruent(addr, s.regs[Fetch(env.prog, s.pc).dst] + Fetch(env.prog, s.pc).off)
    requires var i := Fetch(env.prog, s.pc);
             if i.opc in {0x72, 0x6a, 0x62, 0x7a} then SignedWord(value) == i.imm else i.src < 11 && value == s.regs[i.src]
    ensures var i, o := Fetch(env.prog, s.pc), Step(env, s);
            var w := OpWidth(i.opc);
            && (addr < env.stackBase || addr + w > env.stackBase + 512 ==> o == Fail(MemoryOutOfBounds))
            && (env.stackBase <= addr && addr + w <= env.stackBase + 512 ==>
                  && o.Next? && o.state.regs == s.regs && o.state.pc == s.pc + 1
                  && forall k :: 0 <= k < 512 ==>
                       o.state.stack[k] == if addr <= env.stackBase + k < addr + w
                                           then value / Pow2(8 * (env.stackBase + k - addr)) % 256 else s.stack[k])
  {
    var i := Fetch(env.prog, s.pc);
    var w := OpWidth(i.opc);
    ModCongruent(s.regs[i.dst] + i.off);
    CongruentOnce(addr, WrapAdd(s.regs[i.dst], i.off), s.regs[i.dst] + i.off);
    ExtendReads(i.imm);
    StoreStep(env, s, i, addr, value, w);
    if env.stackBase <= addr && addr + w <= env.stackBase + 512 {
      StoredBytes(env, s.stack, addr, w, value);
    }
  }

  lemma StoreStep(env: Env, s: State, i: Insn, addr: Word, value: Word, w: nat)
    requires env.Valid() && s.pc < env.Slots() && i == Fetch(env.prog, s.pc) && w == OpWidth(i.opc)
    requires i.opc in {0x72, 0x6a, 0x62, 0x7a, 0x73, 0x6b, 0x63, 0x7b} && i.dst < 11 && addr == WrapAdd(s.regs[i.dst], i.off)
    requires if i.opc in {0x72, 0x6a, 0x62, 0x7a} then value == Extend(i.imm) else i.src < 11 && value == s.regs[i.src]
    ensures Step(env, s) == Store(env, s.(pc := s.pc + 1), addr, w, value)
  {
    StoreParses(i.opc);
    ParsedWidth(i.opc);
    var op := Parse(i.opc).value;
    assert Step(env, s) == Attempt(env, s.(pc := s.pc + 1), op, i);
  }

  lemma StoreParses(opc: Byte)
    ensures opc in {0x72, 0x6a, 0x62, 0x7a} ==> Parse(opc) == Some(StoreImm(OpWidth(opc)))
    ensures opc in {0x73, 0x6b, 0x63, 0x7b} ==> Parse(opc) == Some(StoreReg(OpWidth(opc)))
  {
  }

  lemma StoredBytes(env: Env, stack: Stack, addr: nat, w: nat, value: Word)
    requires env.stackBase <= addr && addr + w <= env.stackBase + 512
    ensures var after := WriteStack(env, stack, addr, w, value);
            after.Some? && forall k :: 0 <= k < 512 ==>
              after.value[k] == if addr <= env.stackBase + k < addr + w
                                then value / Pow2(8 * (env.stackBase + k - addr)) % 256 else stack[k]
  {
    var at := addr - env.stackBase;
    forall j | 0 <= j < w ensures Le(w, value)[j] == value / Pow2(8 * j) % 256 {
      LeAt(w, value, j);
    }
  }

  // ---- control flow ---------------------------------------------------------------------------

  /** `ja` always, and `jeq` exactly when the register reads as the immediate: `off` slots past
      the next one, if that is in the program. */
  lemma JumpLaw(env: Env, s: State)
    requires env.Valid() && s.pc < env.Slots() && Fetch(env.prog, s.pc).opc in {0x05, 0x15}
    ensures var i, o := Fetch(env.prog, s.pc), Step(env, s);
            var target := s.pc + 1 + i.off;
            && (i.opc == 0x15 && i.dst >= 11 ==> o == Fail(InvalidRegister(i.dst)))
            && (i.opc == 0x15 && i.dst < 11 && SignedWord(s.regs[i.dst]) != i.imm ==>
                  o.Next? && o.state == s.(pc := s.pc + 1))
            && (i.opc == 0x05 || (i.dst < 11 && SignedWord(s.regs[i.dst]) == i.imm) ==>
                  if 0 <= target < |env.prog| / 8 then o.Next? && o.state == s.(pc := target) else o == Fail(JumpOutOfBounds))
  {
    ExtendReads(Fetch(env.prog, s.pc).imm);
  }

  /** `k` is the first helper of the table with this id. */
  ghost predicate FirstHelper(hs: seq<Option<HelperEntry>>, id: int, k: int) {
    0 <= k < |hs| && hs[k].Some? && hs[k].value.id == id && forall j :: 0 <= j < k ==> hs[j].None? || hs[j].value.id != id
  }

  predicate NoHelper(hs: seq<Option<HelperEntry>>, id: int) {
    forall k :: 0 <= k < |hs| ==> hs[k].None? || hs[k].value.id != id
  }

  lemma {:induction false} HelperFound(hs: seq<Option<HelperEntry>>, id: nat, k: int)
    requires FirstHelper(hs, id, k)
    ensures Lookup(hs, id) == Some(hs[k].value.func)
  {
    if k > 0 {
      assert FirstHelper(hs[1..], id, k - 1);
      HelperFound(hs[1..], id, k - 1);
    }
  }

  lemma {:induction false} HelperMissing(hs: seq<Option<HelperEntry>>, id: nat)
    requires NoHelper(hs, id)
    ensures Lookup(hs, id) == None
  {
    if hs != [] {
      HelperMissing(hs[1..], id);
    }
  }

  /** `call`: the helper gets r1 to r5 in order and its result goes to r0; without one, id 6
      is the trace output of the bytes r1 and r2 describe. */
  lemma CallLaw(env: Env, s: State)
    requires env.Valid() && s.pc < env.Slots() && Fetch(env.prog, s.pc).opc == 0x85
    ensures var o, id := Step(env, s), Fetch(env.prog, s.pc).imm % 0x1_0000_0000;
            && (forall k :: FirstHelper(env.helpers, id, k) ==>
                  && OnlyReg(s, o, 0, s.pc + 1)
                  && o.state.regs[0] == env.helpers[k].value.func(s.regs[1], s.regs[2], s.regs[3], s.regs[4], s.regs[5]))
            && (NoHelper(env.helpers, id) ==>
                  if id != 6 then o == Fail(UnknownHelper(id))
                  else var fmt := ReadMemory(env, s.stack, s.regs[1], s.regs[2]);
                       if fmt.None? then o == Fail(MemoryOutOfBounds)
                       else OnlyReg(s, o, 0, s.pc + 1) && o.state.regs[0] == env.printk(fmt.value, s.regs[3], s.regs[4], s.regs[5]))
  {
    var id := Fetch(env.prog, s.pc).imm % 0x1_0000_0000;
    forall k | FirstHelper(env.helpers, id, k) ensures Lookup(env.helpers, id) == Some(env.helpers[k].value.func) {
      HelperFound(env.helpers, id, k);
    }
    if NoHelper(env.helpers, id) {
      HelperMissing(env.helpers, id);
    }
  }

  /** The opcodes of the interpreter. */
  predicate Known(opc: Byte) {
    opc in {0x18, 0x71, 0x69, 0x61, 0x79, 0x72, 0x6a, 0x62, 0x7a, 0x73, 0x6b, 0x63, 0x7b,
            0x07, 0x0f, 0xb7, 0xbf, 0x05, 0x15, 0x85, 0x95}
  }

  lemma KnownParses(opc: Byte)
    ensures Parse(opc).Some? <==> Known(opc)
    ensures Parse(opc) == Some(Exit) <==> opc == 0x95
  {
    if opc % 8 < 4 {
      KnownMemory(opc);
    } else {
      KnownCode(opc);
    }
  }

  lemma KnownMemory(opc: Byte)
    requires opc % 8 < 4
    ensures ParseMemory(opc % 8, opc / 8 % 4, opc / 32).Some? <==>
              opc in {0x18, 0x71, 0x69, 0x61, 0x79, 0x72, 0x6a, 0x62, 0x7a, 0x73, 0x6b, 0x63, 0x7b}
  {
  }

  lemma KnownCode(opc: Byte)
    requires opc % 8 >= 4
    ensures ParseCode(opc % 8, opc / 8 % 2, opc / 16).Some? <==> opc in {0x07, 0x0f, 0xb7, 0xbf, 0x05, 0x15, 0x85, 0x95}
    ensures ParseCode(opc % 8, opc / 8 % 2, opc / 16) == Some(Exit) <==> opc == 0x95
  {
  }

  lemma AttemptOutcome(env: Env, s: State, op: Op, i: Insn)
    requires env.Valid() && (op.Load? ==> op.width <= 8)
    ensures var o := Attempt(env, s, op, i);
            (o.Done? <==> op == Exit) && (op == Exit ==> o == Done(s.regs[0])) && (o.Fail? ==> !o.error.UnknownOpcode?)
  {
  }

  /** `exit` ends the run with r0; every other opcode is unknown. */
  lemma ExitLaw(env: Env, s: State)
    requires env.Valid() && s.pc < env.Slots()
    ensures var opc, o := Fetch(env.prog, s.pc).opc, Step(env, s);
            && (o.Done? <==> opc == 0x95) && (opc == 0x95 ==> o == Done(s.regs[0]))
            && (o == Fail(UnknownOpcode(opc)) <==> !Known(opc))
  {
    var i := Fetch(env.prog, s.pc);
    KnownParses(i.opc);
    ParsedWidth(i.opc);
    if Parse(i.opc).Some? {
      AttemptOutcome(env, s.(pc := s.pc + 1), Parse(i.opc).value, i);
    }
  }

  // ---- a whole run ----------------------------------------------------------------------------

  /** `mov64 r0, a; add64 r0, b; exit` */
  function SumProgram(a: int, b: int): seq<Byte>
    requires -0x8000_0000 <= a < 0x8000_0000 && -0x8000_0000 <= b < 0x8000_0000
  {
    ToBytes(Insn(0xb7, 0, 0, 0, a)) + ToBytes(Insn(0x07, 0, 0, 0, b)) + ToBytes(Insn(0x95, 0, 0, 0, 0))
  }

  lemma SumFetches(a: int, b: int)
    requires -0x8000_0000 <= a < 0x8000_0000 && -0x8000_0000 <= b < 0x8000_0000
    ensures var p := SumProgram(a, b);
            && |p| == 24 && Fetch(p, 0) == Insn(0xb7, 0, 0, 0, a) && Fetch(p, 1) == Insn(0x07, 0, 0, 0, b)
            && Fetch(p, 2) == Insn(0x95, 0, 0, 0, 0)
  {
    var p := SumProgram(a, b);
    assert p[0..8] == ToBytes(Insn(0xb7, 0, 0, 0, a));
    assert p[8..16] == ToBytes(Insn(0x07, 0, 0, 0, b));
    assert p[16..24] == ToBytes(Insn(0x95, 0, 0, 0, 0));
    DecodeEncode(Insn(0xb7, 0, 0, 0, a));
    DecodeEncode(Insn(0x07, 0, 0, 0, b));
    DecodeEncode(Insn(0x95, 0, 0, 0, 0));
  }

  /** Run from any registers with a budget of three or more, it returns the sum. */
  lemma SumProgramAdds(env: Env, s: State, a: int, b: int, limit: nat)
    requires -0x8000_0000 <= a < 0x8000_0000 && -0x8000_0000 <= b < 0x8000_0000
    requires env.prog == SumProgram(a, b) && env.Valid() && s.pc == 0 && limit >= 3
    ensures var e := Run(env, s, limit);
            e.executed == 3 && e.result.Ok? && SignedWord(e.result.value) == a + b
  {
    SumFetches(a, b);
    var step := Stepper(env);
    MovLaw(env, s);
    var s1 := Step(env, s).state;
    AddLaw(env, s1);
    var s2 := Step(env, s1).state;
    ExitLaw(env, s2);
    assert step(s) == Next(s1) && step(s1) == Next(s2) && step(s2) == Done(s2.regs[0]);
    DriveNext(step, 3, s, s1, limit);
    DriveNext(step, 3, s1, s2, limit - 1);
    SumWord(s1.regs[0], s2.regs[0], a, b);
  }

  lemma DriveNext(step: State -> Outcome, slots: nat, s: State, s': State, limit: nat)
    requires s.pc < slots && limit > 0 && step(s) == Next(s')
    ensures Drive(step, slots, s, limit) ==
            var rest := Drive(step, slots, s', limit - 1); rest.(executed := rest.executed + 1)
  {
  }

  lemma SumWord(x: Word, y: Word, a: int, b: int)
    requires -0x8000_0000 <= a < 0x8000_0000 && -0x8000_0000 <= b < 0x8000_0000
    requires SignedWord(x) == a && Congruent(y, x + b)
    ensures SignedWord(y) == a + b
  {
    var q: int :| y - (x + b) == q * 0x1_0000_0000_0000_0000;
  }
}
