/**
The interpreter itself (core/kbpf/src/vm.rs:240-552): registers, stack and helper table
updated in place, one loop over the program, proved against EbpfSpec.  The address of the
stack is a parameter.
*/
module EbpfVm {
  import opened Prelude
  import opened Bits
  import opened Bytes
  import opened EbpfInsn
  import opened EbpfSpec

  const HELPER_TABLE_CAPACITY: nat := 32

  // ---- machine arithmetic -------------------------------------------------------------------

  /** `wrapping_add` on 64-bit words. */
  function WrappingAdd(a: Word, b: Word): Word {
    if a + b < 0x1_0000_0000_0000_0000 then a + b else a + b - 0x1_0000_0000_0000_0000
  }

  /** `as i64 as u64` */
  function AsU64(v: int): Word
    requires -0x8000_0000 <= v < 0x8000_0000
  {
    if v < 0 then 0x1_0000_0000_0000_0000 + v else v
  }

  /** `as u32` */
  function AsU32(v: int): nat
    requires -0x8000_0000 <= v < 0x8000_0000
  {
    if v < 0 then 0x1_0000_0000 + v else v
  }

  lemma AddMeans(a: Word, b: Word)
    ensures WrappingAdd(a, b) == WrapAdd(a, b)
  {
  }

  lemma SignedMeans(a: Word, v: int)
    requires -0x8000_0000 <= v < 0x8000_0000
    ensures AsU64(v) == Extend(v) && AsU32(v) == Low32(v) && WrappingAdd(a, AsU64(v)) == WrapAdd(a, v)
  {
  }

  // ---- little-endian values -----------------------------------------------------------------

  /** `load_memory_value`: shift each byte into place. */
  method LoadMemoryValue(bytes: seq<Byte>) returns (value: Word)
    requires |bytes| <= 8
    ensures value == Number(bytes)
  {
    value := 0;
    for i := 0 to |bytes|
      invariant value == Number(bytes[..i])
    {
      NextByte(bytes, i, value, bytes[i] * Pow2(8 * i));
      NumberFits(bytes[..i + 1], i + 1);
      value := BitOr(bytes[i] * Pow2(8 * i), value);
    }
    assert bytes[..|bytes|] == bytes;
  }

  lemma {:induction false} NextByte(bytes: seq<Byte>, i: nat, value: nat, high: nat)
    requires i < |bytes| && value == Number(bytes[..i]) && high == bytes[i] * Pow2(8 * i)
    ensures BitOr(high, value) == Number(bytes[..i + 1])
  {
    NumberBound(bytes[..i]);
    OrAbove(bytes[i], value, 8 * i, high);
    ByteAppended(bytes[..i], bytes[i], high);
    assert bytes[..i + 1] == bytes[..i] + [bytes[i]];
  }

  lemma {:induction false} OrAbove(b: nat, value: nat, k: nat, high: nat)
    requires value < Pow2(k) && high == b * Pow2(k)
    ensures BitOr(high, value) == high + value
  {
    AlignedDisjoint(b, value, k);
    OrDisjoint(high, value);
  }

  lemma {:induction false} ByteAppended(done: seq<Byte>, b: Byte, high: nat)
    requires high == b * Pow2(8 * |done|)
    ensures Number(done + [b]) == Number(done) + high
  {
    NumberConcat(done, [b]);
    OneByte(b);
  }

  lemma {:induction false} OneByte(b: Byte)
    ensures Number([b]) == b
  {
    assert [b][1..] == [];
  }

  lemma {:induction false} LookupAt(hs: seq<Option<HelperEntry>>, id: nat, k: nat)
    requires k < |hs| && hs[k].Some? && hs[k].value.id == id
    requires forall j :: 0 <= j < k ==> hs[j].None? || hs[j].value.id != id
    ensures Lookup(hs, id) == Some(hs[k].value.func)
  {
    if k > 0 {
      LookupAt(hs[1..], id, k - 1);
    }
  }

  lemma {:induction false} LookupNone(hs: seq<Option<HelperEntry>>, id: nat)
    requires forall j :: 0 <= j < |hs| ==> hs[j].None? || hs[j].value.id != id
    ensures Lookup(hs, id) == None
  {
    if hs != [] {
      LookupNone(hs[1..], id);
    }
  }

  /** Changing a slot that did not hold `id` to one that does not leaves `id` alone. */
  lemma {:induction false} LookupOther(hs: seq<Option<HelperEntry>>, k: nat, e: HelperEntry, id: nat)
    requires k < |hs| && e.id != id && (hs[k].None? || hs[k].value.id != id)
    ensures Lookup(hs[k := Some(e)], id) == Lookup(hs, id)
  {
    if k > 0 {
      assert hs[k := Some(e)][1..] == hs[1..][k - 1 := Some(e)];
      LookupOther(hs[1..], k - 1, e, id);
    }
  }

  /** `step` is the step function of `env`. */
  ghost predicate StepsLike(step: State -> Outcome, env: Env)
    requires env.Valid()
  {
    forall s: State {:trigger Step(env, s)} :: s.pc < env.Slots() ==> step(s) == Step(env, s)
  }

  const OP_LD_DW_IMM: Byte := 0x18
  const LOADS: seq<Byte> := [0x71, 0x69, 0x61, 0x79]
  const STORES_IMM: seq<Byte> := [0x72, 0x6a, 0x62, 0x7a]
  const STORES_REG: seq<Byte> := [0x73, 0x6b, 0x63, 0x7b]
  const OP_ADD64_IMM: Byte := 0x07
  const OP_ADD64_REG: Byte := 0x0f
  const OP_MOV64_IMM: Byte := 0xb7
  const OP_MOV64_REG: Byte := 0xbf
  const OP_JA: Byte := 0x05
  const OP_JEQ_IMM: Byte := 0x15
  const OP_CALL: Byte := 0x85
  const OP_EXIT: Byte := 0x95

  function MemWidth(opc: Byte): nat {
    if opc in [0x71, 0x72, 0x73] then 1
    else if opc in [0x69, 0x6a, 0x6b] then 2
    else if opc in [0x61, 0x62, 0x63] then 4
    else 8
  }

  /** The opcode constants, taken apart into their fields. */
  lemma OpcodeTable(opc: Byte)
    ensures Parse(opc) ==
            if opc == OP_LD_DW_IMM then Some(LoadImm64)
            else if opc in LOADS then Some(Load(MemWidth(opc)))
            else if opc in STORES_IMM then Some(StoreImm(MemWidth(opc)))
            else if opc in STORES_REG then Some(StoreReg(MemWidth(opc)))
            else if opc == OP_ADD64_IMM then Some(Add(false))
            else if opc == OP_ADD64_REG then Some(Add(true))
            else if opc == OP_MOV64_IMM then Some(Mov(false))
            else if opc == OP_MOV64_REG then Some(Mov(true))
            else if opc == OP_JA then Some(Ja)
            else if opc == OP_JEQ_IMM then Some(JeqImm)
            else if opc == OP_CALL then Some(Call)
            else if opc == OP_EXIT then Some(Exit)
            else None
  {
    if opc % 8 < 4 {
      MemoryOpcodes(opc);
    } else {
      CodeOpcodes(opc);
    }
  }

  lemma MemoryOpcodes(opc: Byte)
    requires opc % 8 < 4
    ensures Parse(opc) ==
            if opc == OP_LD_DW_IMM then Some(LoadImm64)
            else if opc in LOADS then Some(Load(MemWidth(opc)))
            else if opc in STORES_IMM then Some(StoreImm(MemWidth(opc)))
            else if opc in STORES_REG then Some(StoreReg(MemWidth(opc)))
            else None
  {
  }

  lemma CodeOpcodes(opc: Byte)
    requires opc % 8 >= 4
    ensures Parse(opc) ==
            if opc == OP_ADD64_IMM then Some(Add(false))
            else if opc == OP_ADD64_REG then Some(Add(true))
            else if opc == OP_MOV64_IMM then Some(Mov(false))
            else if opc == OP_MOV64_REG then Some(Mov(true))
            else if opc == OP_JA then Some(Ja)
            else if opc == OP_JEQ_IMM then Some(JeqImm)
            else if opc == OP_CALL then Some(Call)
            else if opc == OP_EXIT then Some(Exit)
            else None
  {
  }

  lemma WideWord(high: nat, low: nat)
    requires low < 0x1_0000_0000
    ensures BitOr(high * 0x1_0000_0000, low) == 0x1_0000_0000 * high + low
  {
    Pow2Values();
    AlignedDisjoint(high, low, 32);
    OrDisjoint(high * 0x1_0000_0000, low);
  }

  /** What an instruction means once the program counter has moved past it. */
  ghost function Meaning(env: Env, s: State, i: Insn): Outcome
    requires env.Valid()
  {
    ParsedWidth(i.opc);
    match Parse(i.opc)
    case None => Fail(UnknownOpcode(i.opc))
    case Some(op) => Attempt(env, s, op, i)
  }

  lemma StepMeans(step: State -> Outcome, env: Env, s: State, s': State, i: Insn)
    requires env.Valid() && s.pc < env.Slots() && i == Fetch(env.prog, s.pc) && StepsLike(step, env)
    requires s' == s.(pc := s.pc + 1)
    ensures step(s) == Meaning(env, s', i)
  {
    assert step(s) == Step(env, s);
  }

  ghost function Initial(stackBase: nat, initial: seq<Word>): State
    requires |initial| == 5 && stackBase + STACK_SIZE < TWO64
  {
    State([0] + initial + [0, 0, 0, 0, stackBase + STACK_SIZE], seq(STACK_SIZE, _ => 0), 0)
  }

  /** After `steps` instructions the run from `s0` goes on from `s`. */
  ghost predicate Resumes(step: State -> Outcome, slots: nat, s0: State, limit: nat, s: State, steps: nat) {
    && steps <= limit
    && var rest := Drive(step, slots, s, limit - steps);
       Drive(step, slots, s0, limit) == rest.(executed := rest.executed + steps)
  }

  /** What an instruction makes the loop do. */
  datatype Control = Go(pc: nat) | Return(value: Word) | Stop(error: Error)

  ghost predicate Agrees(c: Control, o: Outcome, now: State) {
    match c
    case Go(pc) => o == Next(now) && now.pc == pc
    case Return(v) => o == Done(v)
    case Stop(e) => o == Fail(e)
  }

  // ---- the machine --------------------------------------------------------------------------

  class Vm {
    const stackBase: nat
    const printk: (seq<Byte>, Word, Word, Word) -> Word
    const regs: array<Word>
    const stack: array<Byte>
    const helpers: array<Option<HelperEntry>>
    var readOnly: seq<ReadOnly>
    var instructionLimit: nat

    ghost predicate Valid()
      reads this
    {
      && regs.Length == NUM_REGS && stack.Length == STACK_SIZE && helpers.Length == HELPER_TABLE_CAPACITY
      && stackBase + STACK_SIZE < TWO64
      && (regs as object) != (stack as object) && (helpers as object) != (regs as object)
      && (helpers as object) != (stack as object)
    }

    ghost function Environment(prog: seq<Byte>): Env
      reads this, helpers
    {
      Env(prog, stackBase, readOnly, helpers[..], printk)
    }

    ghost function At(pc: nat): State
      requires Valid()
      reads this, regs, stack
    {
      State(regs[..], stack[..], pc)
    }

    constructor (stackBase: nat, printk: (seq<Byte>, Word, Word, Word) -> Word)
      requires stackBase + STACK_SIZE < TWO64
      ensures Valid() && this.stackBase == stackBase && this.printk == printk
      ensures fresh(regs) && fresh(stack) && fresh(helpers)
      ensures readOnly == [] && instructionLimit == 1_000_000
      ensures regs.Length == 11 && stack.Length == 512 && helpers.Length == 32
      ensures (forall k :: 0 <= k < 11 ==> regs[k] == 0) && forall k :: 0 <= k < 512 ==> stack[k] == 0
      ensures forall id :: Lookup(helpers[..], id) == None
    {
      this.stackBase := stackBase;
      this.printk := printk;
      regs := new Word[NUM_REGS](_ => 0);
      stack := new Byte[STACK_SIZE](_ => 0);
      helpers := new Option<HelperEntry>[HELPER_TABLE_CAPACITY](_ => None);
      readOnly := [];
      instructionLimit := 1_000_000;
      new;
      forall id ensures Lookup(helpers[..], id) == None {
        LookupNone(helpers[..], id);
      }
    }

    /** Binds `func` to `id`: replaces an entry, else takes a free slot, else fails unchanged. */
    method RegisterHelper(id: nat, func: HelperFn) returns (r: Result<(), Error>)
      requires Valid()
      modifies helpers
      ensures r.Err? <==> forall k :: 0 <= k < helpers.Length ==> old(helpers[k].Some? && helpers[k].value.id != id)
      ensures r.Err? ==> r.error == HelperTableFull && helpers[..] == old(helpers[..])
      ensures r.Ok? ==> Lookup(helpers[..], id) == Some(func)
      ensures r.Ok? ==> forall other: nat :: other != id ==> Lookup(helpers[..], other) == Lookup(old(helpers[..]), other)
    {
      ghost var hs := helpers[..];
      for k := 0 to helpers.Length
        invariant helpers[..] == hs
        invariant forall j :: 0 <= j < k ==> hs[j].None? || hs[j].value.id != id
      {
        if helpers[k].Some? && helpers[k].value.id == id {
          helpers[k] := Some(HelperEntry(id, func));
          assert helpers[..] == hs[k := Some(HelperEntry(id, func))];
          LookupAt(helpers[..], id, k);
          forall other: nat | other != id ensures Lookup(helpers[..], other) == Lookup(hs, other) {
            LookupOther(hs, k, HelperEntry(id, func), other);
          }
          return Ok(());
        }
      }
      for k := 0 to helpers.Length
        invariant helpers[..] == hs
        invariant forall j :: 0 <= j < k ==> hs[j].Some?
      {
        if helpers[k].None? {
          helpers[k] := Some(HelperEntry(id, func));
          assert helpers[..] == hs[k := Some(HelperEntry(id, func))];
          LookupAt(helpers[..], id, k);
          forall other: nat | other != id ensures Lookup(helpers[..], other) == Lookup(hs, other) {
            LookupOther(hs, k, HelperEntry(id, func), other);
          }
          return Ok(());
        }
      }
      return Err(HelperTableFull);
    }

    method LookupHelper(id: nat) returns (r: Option<HelperFn>)
      requires Valid()
      ensures r == Lookup(helpers[..], id)
    {
      for k := 0 to helpers.Length
        invariant forall j :: 0 <= j < k ==> helpers[j].None? || helpers[j].value.id != id
      {
        if helpers[k].Some? && helpers[k].value.id == id {
          LookupAt(helpers[..], id, k);
          return Some(helpers[k].value.func);
        }
      }
      LookupNone(helpers[..], id);
      return None;
    }

    /** The stack bytes, else the first read-only region that holds the range. */
    method ReadBytes(addr: Word, len: nat, ghost prog: seq<Byte>) returns (r: Option<seq<Byte>>)
      requires Valid()
      ensures r == ReadMemory(Environment(prog), stack[..], addr, len)
    {
      if addr >= stackBase && addr + len <= stackBase + STACK_SIZE {
        var start := addr - stackBase;
        assert stack[..][start..start + len] == stack[start..start + len];
        return Some(stack[start..start + len]);
      }
      for k := 0 to |readOnly|
        invariant ReadRegions(readOnly, addr, len) == ReadRegions(readOnly[k..], addr, len)
      {
        var m := readOnly[k];
        if m.base + |m.bytes| < TWO64 && addr >= m.base && addr + len <= m.base + |m.bytes| {
          return Some(m.bytes[addr - m.base..addr - m.base + len]);
        }
        assert readOnly[k..][1..] == readOnly[k + 1..];
      }
      return None;
    }

    method ReadOnlyAddr(id: nat, offset: nat) returns (r: Option<Word>)
      requires Valid()
      ensures r == RegionAddr(readOnly, id, offset)
    {
      for k := 0 to |readOnly|
        invariant RegionAddr(readOnly, id, offset) == RegionAddr(readOnly[k..], id, offset)
      {
        var m := readOnly[k];
        if m.id == id {
          if offset > |m.bytes| || m.base + offset >= TWO64 {
            return None;
          }
          return Some(m.base + offset);
        }
        assert readOnly[k..][1..] == readOnly[k + 1..];
      }
      return None;
    }

    /** `store_memory_value` on `stack[at..at + width]`: the low byte of each shift. */
    method StoreMemoryValue(at: nat, width: nat, value: Word)
      requires Valid() && at + width <= STACK_SIZE
      modifies stack
      ensures stack[..] == old(stack[..at]) + Le(width, value) + old(stack[at + width..])
    {
      for i := 0 to width
        invariant forall j :: 0 <= j < i ==> stack[at + j] == Le(width, value)[j]
        invariant forall j :: 0 <= j < at || at + i <= j < STACK_SIZE ==> stack[j] == old(stack[j])
      {
        LeAt(width, value, i);
        stack[at + i] := value / Pow2(8 * i) % 256;
      }
    }

    /** A store changes stack bytes only, and only when the whole range is stack. */
    method WriteStackValue(addr: Word, width: nat, value: Word, ghost prog: seq<Byte>) returns (ok: bool)
      requires Valid()
      modifies stack
      ensures var w := WriteStack(Environment(prog), old(stack[..]), addr, width, value);
              ok == w.Some? && stack[..] == if ok then w.value else old(stack[..])
    {
      if addr < stackBase || addr + width > stackBase + STACK_SIZE {
        return false;
      }
      StoreMemoryValue(addr - stackBase, width, value);
      return true;
    }
  
    // ---- instructions -------------------------------------------------------------------------

    /** `ldx`: the zero-extended bytes at `src + off`. */
    method ExecuteLoad(i: Insn, width: nat, pc: nat, ghost prog: seq<Byte>) returns (c: Control)
      requires Valid() && ValidInsn(i) && |prog| % 8 == 0 && width <= 8
      modifies regs
      ensures Agrees(c, Attempt(Environment(prog), old(At(pc)), Load(width), i), At(pc))
      ensures c.Go? || regs[..] == old(regs[..])
    {
      if i.dst >= NUM_REGS {
        return Stop(InvalidRegister(i.dst));
      }
      if i.src >= NUM_REGS {
        return Stop(InvalidRegister(i.src));
      }
      SignedMeans(regs[i.src], i.off);
      var bytes := ReadBytes(WrappingAdd(regs[i.src], AsU64(i.off)), width, prog);
      if bytes.None? {
        return Stop(MemoryOutOfBounds);
      }
      var value := LoadMemoryValue(bytes.value);
      regs[i.dst] := value;
      return Go(pc);
    }

    /** `st` and `stx`: `value` at `dst + off`. */
    method ExecuteStore(i: Insn, width: nat, fromReg: bool, pc: nat, ghost prog: seq<Byte>) returns (c: Control)
      requires Valid() && ValidInsn(i) && |prog| % 8 == 0
      modifies stack
      ensures var op := if fromReg then StoreReg(width) else StoreImm(width);
              Agrees(c, Attempt(Environment(prog), old(At(pc)), op, i), At(pc))
      ensures c.Go? || stack[..] == old(stack[..])
    {
      if i.dst >= NUM_REGS {
        return Stop(InvalidRegister(i.dst));
      }
      if fromReg && i.src >= NUM_REGS {
        return Stop(InvalidRegister(i.src));
      }
      SignedMeans(regs[i.dst], i.off);
      SignedMeans(0, i.imm);
      var value := if fromReg then regs[i.src] else AsU64(i.imm);
      var ok := WriteStackValue(WrappingAdd(regs[i.dst], AsU64(i.off)), width, value, prog);
      if !ok {
        return Stop(MemoryOutOfBounds);
      }
      return Go(pc);
    }

    method ExecuteAlu(i: Insn, op: Op, pc: nat, ghost prog: seq<Byte>) returns (c: Control)
      requires Valid() && ValidInsn(i) && |prog| % 8 == 0 && (op.Add? || op.Mov?)
      modifies regs
      ensures Agrees(c, Attempt(Environment(prog), old(At(pc)), op, i), At(pc))
      ensures c.Go? || regs[..] == old(regs[..])
    {
      if i.dst >= NUM_REGS {
        return Stop(InvalidRegister(i.dst));
      }
      if op.reg && i.src >= NUM_REGS {
        return Stop(InvalidRegister(i.src));
      }
      var operand := if op.reg then regs[i.src] else AsU64(i.imm);
      SignedMeans(regs[i.dst], i.imm);
      AddMeans(regs[i.dst], operand);
      regs[i.dst] := if op.Add? then WrappingAdd(regs[i.dst], operand) else operand;
      return Go(pc);
    }

    /** `lddw`: two slots, a 64-bit constant or the address of a map value. */
    method ExecuteWide(i: Insn, prog: seq<Byte>, pc: nat) returns (c: Control)
      requires Valid() && ValidInsn(i) && |prog| % 8 == 0
      modifies regs
      ensures Agrees(c, Attempt(Environment(prog), old(At(pc)), LoadImm64, i), At(pc + 1))
      ensures c.Go? ==> c.pc == pc + 1
      ensures c.Go? || regs[..] == old(regs[..])
    {
      if i.dst >= NUM_REGS {
        return Stop(InvalidRegister(i.dst));
      }
      if pc >= |prog| / 8 {
        return Stop(IncompleteWideImmediate);
      }
      var next := Fetch(prog, pc);
      SignedMeans(0, i.imm);
      SignedMeans(0, next.imm);
      if i.src == 2 {
        var a := ReadOnlyAddr(AsU32(i.imm), AsU32(next.imm));
        if a.None? {
          return Stop(MemoryOutOfBounds);
        }
        regs[i.dst] := a.value;
      } else {
        WideWord(AsU32(next.imm), AsU32(i.imm));
        regs[i.dst] := BitOr(AsU32(next.imm) * 0x1_0000_0000, AsU32(i.imm));
      }
      return Go(pc + 1);
    }

    /** `ja` and `jeq`. */
    method ExecuteJump(i: Insn, conditional: bool, pc: nat, prog: seq<Byte>) returns (c: Control)
      requires Valid() && ValidInsn(i) && |prog| % 8 == 0
      ensures Agrees(c, Attempt(Environment(prog), At(pc), if conditional then JeqImm else Ja, i),
                     At(if c.Go? then c.pc else pc))
    {
      if conditional {
        if i.dst >= NUM_REGS {
          return Stop(InvalidRegister(i.dst));
        }
        SignedMeans(0, i.imm);
        if regs[i.dst] != AsU64(i.imm) {
          return Go(pc);
        }
      }
      var target := pc + i.off;
      if target < 0 || target >= |prog| / 8 {
        return Stop(JumpOutOfBounds);
      }
      return Go(target);
    }

    method ExecuteCall(i: Insn, pc: nat, ghost prog: seq<Byte>) returns (c: Control)
      requires Valid() && ValidInsn(i) && |prog| % 8 == 0
      modifies regs
      ensures Agrees(c, Attempt(Environment(prog), old(At(pc)), Call, i), At(pc))
      ensures c.Go? || regs[..] == old(regs[..])
    {
      SignedMeans(0, i.imm);
      var id := AsU32(i.imm);
      var f := LookupHelper(id);
      if f.Some? {
        regs[0] := f.value(regs[1], regs[2], regs[3], regs[4], regs[5]);
        return Go(pc);
      }
      if id != BPF_FUNC_TRACE_PRINTK {
        return Stop(UnknownHelper(id));
      }
      var fmt := ReadBytes(regs[1], regs[2], prog);
      if fmt.None? {
        return Stop(MemoryOutOfBounds);
      }
      regs[0] := printk(fmt.value, regs[3], regs[4], regs[5]);
      return Go(pc);
    }
  
    /** The dispatch on opcode constants does what the opcode's fields mean. */
    method Execute(i: Insn, prog: seq<Byte>, pc: nat) returns (c: Control)
      requires Valid() && ValidInsn(i) && |prog| % 8 == 0
      modifies regs, stack
      ensures Agrees(c, Meaning(Environment(prog), old(At(pc)), i), At(if c.Go? then c.pc else pc))
      ensures c.Go? || (regs[..] == old(regs[..]) && stack[..] == old(stack[..]))
    {
      OpcodeTable(i.opc);
      if i.opc == OP_LD_DW_IMM {
        c := ExecuteWide(i, prog, pc);
      } else if i.opc in LOADS {
        c := ExecuteLoad(i, MemWidth(i.opc), pc, prog);
      } else if i.opc in STORES_IMM {
        c := ExecuteStore(i, MemWidth(i.opc), false, pc, prog);
      } else if i.opc in STORES_REG {
        c := ExecuteStore(i, MemWidth(i.opc), true, pc, prog);
      } else if i.opc == OP_ADD64_IMM {
        c := ExecuteAlu(i, Add(false), pc, prog);
      } else if i.opc == OP_ADD64_REG {
        c := ExecuteAlu(i, Add(true), pc, prog);
      } else if i.opc == OP_MOV64_IMM {
        c := ExecuteAlu(i, Mov(false), pc, prog);
      } else if i.opc == OP_MOV64_REG {
        c := ExecuteAlu(i, Mov(true), pc, prog);
      } else if i.opc == OP_JA {
        c := ExecuteJump(i, false, pc, prog);
      } else if i.opc == OP_JEQ_IMM {
        c := ExecuteJump(i, true, pc, prog);
      } else if i.opc == OP_CALL {
        c := ExecuteCall(i, pc, prog);
      } else if i.opc == OP_EXIT {
        c := Return(regs[0]);
      } else {
        c := Stop(UnknownOpcode(i.opc));
      }
    }

    /** The registers and stack a program starts with. */
    method Reset(initial: seq<Word>)
      requires Valid() && |initial| == 5
      modifies regs, stack
      ensures At(0) == Initial(stackBase, initial)
    {
      forall k | 0 <= k < NUM_REGS {
        regs[k] := 0;
      }
      forall k | 0 <= k < STACK_SIZE {
        stack[k] := 0;
      }
      for k := 0 to 5
        invariant forall j :: 0 <= j < NUM_REGS ==> regs[j] == if 1 <= j <= k then initial[j - 1] else 0
        invariant forall j :: 0 <= j < STACK_SIZE ==> stack[j] == 0
      {
        regs[k + 1] := initial[k];
      }
      regs[10] := stackBase + STACK_SIZE;
    }

    /** Fetch the instruction at `pc` and execute it. */
    method Turn(prog: seq<Byte>, pc: nat, ghost step: State -> Outcome) returns (c: Control)
      requires Valid() && |prog| % 8 == 0 && pc < |prog| / 8 && StepsLike(step, Environment(prog))
      modifies regs, stack
      ensures Agrees(c, step(old(At(pc))), At(if c.Go? then c.pc else pc))
      ensures c.Go? || (regs[..] == old(regs[..]) && stack[..] == old(stack[..]))
    {
      var insn := Fetch(prog, pc);
      ghost var o := step(At(pc));
      StepMeans(step, Environment(prog), At(pc), At(pc + 1), insn);
      c := Execute(insn, prog, pc + 1);
      assert Agrees(c, o, At(if c.Go? then c.pc else pc));
    }

    /** The loop of `run_with_initial_regs` from the first slot. */
    method Loop(prog: seq<Byte>, ghost step: State -> Outcome) returns (r: Result<Word, Error>, steps: nat)
      requires Valid() && |prog| % 8 == 0 && StepsLike(step, Environment(prog))
      modifies regs, stack
      ensures var e := Drive(step, |prog| / 8, old(At(0)), instructionLimit);
              r == e.result && steps == e.executed && regs[..] == e.state.regs && stack[..] == e.state.stack
    {
      var slots := |prog| / 8;
      ghost var env, s0 := Environment(prog), At(0);
      var pc := 0;
      steps := 0;
      while pc < slots
        invariant steps <= instructionLimit && Environment(prog) == env
        invariant Resumes(step, slots, s0, instructionLimit, At(pc), steps)
        decreases instructionLimit - steps
      {
        if steps >= instructionLimit {
          return Err(InstructionLimitExceeded), steps;
        }
        steps := steps + 1;
        var c := Turn(prog, pc, step);
        match c {
          case Go(next) => pc := next;
          case Return(value) => return Ok(value), steps;
          case Stop(error) => return Err(error), steps;
        }
      }
      return Err(EndOfProgram), steps;
    }

    /** `run_with_initial_regs`: a run of the program from the initial registers; what it
        leaves in the registers and the stack is the state in which the run ended. */
    method RunWithInitialRegs(prog: seq<Byte>, initial: seq<Word>) returns (r: Result<Word, Error>, steps: nat)
      requires Valid() && |initial| == 5
      modifies regs, stack
      ensures |prog| % 8 != 0 ==>
                r == Err(UnalignedProgram) && steps == 0 && regs[..] == old(regs[..]) && stack[..] == old(stack[..])
      ensures |prog| % 8 == 0 ==>
                var e := Run(Environment(prog), Initial(stackBase, initial), instructionLimit);
                r == e.result && steps == e.executed && regs[..] == e.state.regs && stack[..] == e.state.stack
      ensures steps <= instructionLimit
    {
      if |prog| % 8 != 0 {
        return Err(UnalignedProgram), 0;
      }
      Reset(initial);
      r, steps := Loop(prog, Stepper(Environment(prog)));
    }
  }
}
