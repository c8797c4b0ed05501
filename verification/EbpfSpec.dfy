/**
What a program for the interpreter of core/kbpf/src/vm.rs means, instruction by
instruction: the part of RFC 9669 it implements (sections 3.1, 3.2, 4.1, 4.3, 5.1 and
5.4), with opcodes taken apart into class, size, mode, source and code fields as the RFC
defines them.  Helpers are arbitrary functions of their arguments.
*/
module EbpfSpec {
  import opened Prelude
  import opened Bits
  import opened Bytes
  import opened EbpfInsn

  const NUM_REGS: nat := 11
  const STACK_SIZE: nat := 512
  const BPF_FUNC_TRACE_PRINTK: nat := 6

  datatype Error =
    | UnalignedProgram
    | InstructionLimitExceeded
    | EndOfProgram
    | IncompleteWideImmediate
    | InvalidRegister(reg: nat)
    | UnknownOpcode(opc: nat)
    | MemoryOutOfBounds
    | JumpOutOfBounds
    | UnknownHelper(id: nat)
    | HelperTableFull

  type HelperFn = (Word, Word, Word, Word, Word) -> Word

  datatype HelperEntry = HelperEntry(id: nat, func: HelperFn)

  /** Host memory a program may read. */
  datatype ReadOnly = ReadOnly(id: nat, base: Word, bytes: seq<Byte>)

  /** Everything a run depends on but does not change. */
  datatype Env = Env(
    prog: seq<Byte>,
    stackBase: nat,
    readOnly: seq<ReadOnly>,
    helpers: seq<Option<HelperEntry>>,
    printk: (seq<Byte>, Word, Word, Word) -> Word)
  {
    function Slots(): nat { |prog| / 8 }

    /** The program is whole slots and the stack does not reach the end of the address space. */
    predicate Valid() { |prog| % 8 == 0 && stackBase + STACK_SIZE < TWO64 }
  }

  type Regs = r: seq<Word> | |r| == NUM_REGS witness seq(NUM_REGS, _ => 0)
  type Stack = s: seq<Byte> | |s| == STACK_SIZE witness seq(STACK_SIZE, _ => 0)

  datatype State = State(regs: Regs, stack: Stack, pc: nat)

  // ---- instructions -------------------------------------------------------------------------

  /** Widths are in bytes; `reg` says whether the second operand is a register. */
  datatype Op =
    | LoadImm64
    | Load(width: nat)
    | StoreImm(width: nat)
    | StoreReg(width: nat)
    | Add(reg: bool)
    | Mov(reg: bool)
    | Ja
    | JeqImm
    | Call
    | Exit

  /** Section 5: the size field. */
  function Width(size: nat): nat {
    match size
    case 0 => 4
    case 1 => 2
    case 2 => 1
    case _ => 8
  }

  /** Load and store classes: three bits of class, two of size, three of mode. */
  function ParseMemory(kind: nat, size: nat, mode: nat): Option<Op> {
    if kind == 0 && mode == 0 && size == 3 then Some(LoadImm64)
    else if kind == 1 && mode == 3 then Some(Load(Width(size)))
    else if kind == 2 && mode == 3 then Some(StoreImm(Width(size)))
    else if kind == 3 && mode == 3 then Some(StoreReg(Width(size)))
    else None
  }

  /** Arithmetic and jump classes: three bits of class, one of source, four of code. */
  function ParseCode(kind: nat, source: nat, code: nat): Option<Op> {
    if kind == 7 && code == 0 then Some(Add(source == 1))
    else if kind == 7 && code == 0xb then Some(Mov(source == 1))
    else if kind == 5 && source == 0 && code == 0 then Some(Ja)
    else if kind == 5 && source == 0 && code == 1 then Some(JeqImm)
    else if kind == 5 && source == 0 && code == 8 then Some(Call)
    else if kind == 5 && source == 0 && code == 9 then Some(Exit)
    else None
  }

  function Parse(opc: Byte): Option<Op> {
    if opc % 8 < 4 then ParseMemory(opc % 8, opc / 8 % 4, opc / 32) else ParseCode(opc % 8, opc / 8 % 2, opc / 16)
  }

  function Fetch(prog: seq<Byte>, slot: nat): Insn
    requires 8 * slot + 8 <= |prog|
  {
    FromBytes(prog[8 * slot..8 * slot + 8])
  }

  // ---- words --------------------------------------------------------------------------------

  /** Sign-extended to 64 bits. */
  function Extend(v: int): Word {
    v % 0x1_0000_0000_0000_0000
  }

  function WrapAdd(a: Word, v: int): Word {
    (a + v) % 0x1_0000_0000_0000_0000
  }

  function Low32(v: int): nat {
    v % 0x1_0000_0000
  }

  // ---- memory -------------------------------------------------------------------------------

  predicate InStack(base: nat, addr: nat, len: nat) {
    base <= addr && addr + len <= base + STACK_SIZE
  }

  predicate InRegion(r: ReadOnly, addr: nat, len: nat) {
    r.base <= addr && addr + len <= r.base + |r.bytes| < TWO64
  }

  /** The first region that holds the whole range. */
  function ReadRegions(rs: seq<ReadOnly>, addr: nat, len: nat): (r: Option<seq<Byte>>)
    ensures r.Some? ==> |r.value| == len
  {
    if rs == [] then None
    else if InRegion(rs[0], addr, len) then Some(rs[0].bytes[addr - rs[0].base..addr - rs[0].base + len])
    else ReadRegions(rs[1..], addr, len)
  }

  /** The bytes at `addr`: of the stack, or else of a read-only region. */
  function ReadMemory(env: Env, stack: Stack, addr: nat, len: nat): (r: Option<seq<Byte>>)
    ensures r.Some? ==> |r.value| == len
  {
    if InStack(env.stackBase, addr, len) then Some(stack[addr - env.stackBase..addr - env.stackBase + len])
    else ReadRegions(env.readOnly, addr, len)
  }

  function WriteStack(env: Env, stack: Stack, addr: nat, width: nat, value: Word): Option<Stack> {
    if !InStack(env.stackBase, addr, width) then None
    else
      var at := addr - env.stackBase;
      Some(stack[..at] + Le(width, value) + stack[at + width..])
  }

  function RegionAddr(rs: seq<ReadOnly>, id: nat, offset: nat): Option<Word> {
    if rs == [] then None
    else if rs[0].id == id then
      if offset <= |rs[0].bytes| && rs[0].base + offset < TWO64 then Some(rs[0].base + offset) else None
    else RegionAddr(rs[1..], id, offset)
  }

  // ---- helpers ------------------------------------------------------------------------------

  function Lookup(hs: seq<Option<HelperEntry>>, id: nat): Option<HelperFn> {
    if hs == [] then None
    else if hs[0].Some? && hs[0].value.id == id then Some(hs[0].value.func)
    else Lookup(hs[1..], id)
  }

  /** A registered helper, or else the built-in trace output. */
  function CallHelper(env: Env, s: State, id: nat): Result<Word, Error> {
    match Lookup(env.helpers, id)
    case Some(f) => Ok(f(s.regs[1], s.regs[2], s.regs[3], s.regs[4], s.regs[5]))
    case None =>
      if id != BPF_FUNC_TRACE_PRINTK then Err(UnknownHelper(id))
      else match ReadMemory(env, s.stack, s.regs[1], s.regs[2])
        case None => Err(MemoryOutOfBounds)
        case Some(fmt) => Ok(env.printk(fmt, s.regs[3], s.regs[4], s.regs[5]))
  }

  // ---- one instruction ----------------------------------------------------------------------

  datatype Outcome = Next(state: State) | Done(value: Word) | Fail(error: Error)

  /** The register fields an instruction uses, in the order they are checked. */
  function BadRegister(op: Op, i: Insn): Option<nat> {
    var usesDst := !(op.Ja? || op.Call? || op.Exit?);
    var usesSrc := op.Load? || op.StoreReg? || (op.Add? && op.reg) || (op.Mov? && op.reg);
    if usesDst && i.dst >= NUM_REGS then Some(i.dst)
    else if usesSrc && i.src >= NUM_REGS then Some(i.src)
    else None
  }

  function SetReg(s: State, r: nat, v: Word): State
    requires r < NUM_REGS
  {
    s.(regs := s.regs[r := v])
  }

  /** A branch to `off` slots past the next instruction must stay inside the program. */
  function Jump(env: Env, s: State, off: int): Outcome {
    if 0 <= s.pc + off < env.Slots() then Next(s.(pc := s.pc + off)) else Fail(JumpOutOfBounds)
  }

  function Store(env: Env, s: State, addr: Word, width: nat, value: Word): Outcome {
    match WriteStack(env, s.stack, addr, width, value)
    case None => Fail(MemoryOutOfBounds)
    case Some(stack) => Next(s.(stack := stack))
  }

  function WideImmediate(env: Env, s: State, i: Insn): Outcome
    requires env.Valid() && i.dst < NUM_REGS
  {
    if s.pc >= env.Slots() then Fail(IncompleteWideImmediate)
    else
      var high := Low32(Fetch(env.prog, s.pc).imm);
      var s' := s.(pc := s.pc + 1);
      if i.src != 2 then Next(SetReg(s', i.dst, 0x1_0000_0000 * high + Low32(i.imm)))
      else match RegionAddr(env.readOnly, Low32(i.imm), high)
        case None => Fail(MemoryOutOfBounds)
        case Some(a) => Next(SetReg(s', i.dst, a))
  }

  /** `s` already points to the next slot. */
  function Perform(env: Env, s: State, op: Op, i: Insn): Outcome
    requires env.Valid() && BadRegister(op, i).None? && (op.Load? ==> op.width <= 8)
  {
    match op
    case LoadImm64 => WideImmediate(env, s, i)
    case Load(w) =>
      (match ReadMemory(env, s.stack, WrapAdd(s.regs[i.src], i.off), w)
       case None => Fail(MemoryOutOfBounds)
       case Some(b) => NumberFits(b, w); Next(SetReg(s, i.dst, Number(b))))
    case StoreImm(w) => Store(env, s, WrapAdd(s.regs[i.dst], i.off), w, Extend(i.imm))
    case StoreReg(w) => Store(env, s, WrapAdd(s.regs[i.dst], i.off), w, s.regs[i.src])
    case Add(reg) => Next(SetReg(s, i.dst, WrapAdd(s.regs[i.dst], if reg then s.regs[i.src] else i.imm)))
    case Mov(reg) => Next(SetReg(s, i.dst, if reg then s.regs[i.src] else Extend(i.imm)))
    case Ja => Jump(env, s, i.off)
    case JeqImm => if s.regs[i.dst] == Extend(i.imm) then Jump(env, s, i.off) else Next(s)
    case Call =>
      (match CallHelper(env, s, Low32(i.imm))
       case Err(e) => Fail(e)
       case Ok(v) => Next(SetReg(s, 0, v)))
    case Exit => Done(s.regs[0])
  }

  lemma NumberFits(b: seq<Byte>, w: nat)
    requires |b| == w <= 8
    ensures Number(b) < TWO64 && Number(b) < Pow2(8 * w)
  {
    NumberBound(b);
    Pow2Up(8 * w, 64);
    Pow2Values();
  }

  lemma ParsedWidth(opc: Byte)
    ensures var op := Parse(opc);
            op.Some? && (op.value.Load? || op.value.StoreImm? || op.value.StoreReg?) ==> op.value.width in {1, 2, 4, 8}
  {
  }

  function Attempt(env: Env, s: State, op: Op, i: Insn): Outcome
    requires env.Valid() && (op.Load? ==> op.width <= 8)
  {
    if BadRegister(op, i).Some? then Fail(InvalidRegister(BadRegister(op, i).value)) else Perform(env, s, op, i)
  }

  /** One instruction from state `s`. */
  function Step(env: Env, s: State): Outcome
    requires env.Valid() && s.pc < env.Slots()
  {
    var i := Fetch(env.prog, s.pc);
    ParsedWidth(i.opc);
    match Parse(i.opc)
    case None => Fail(UnknownOpcode(i.opc))
    case Some(op) => Attempt(env, s.(pc := s.pc + 1), op, i)
  }

  // ---- a run --------------------------------------------------------------------------------

  /** How a run ended, where, and after how many instructions. */
  datatype Ending = Ending(result: Result<Word, Error>, state: State, executed: nat)

  /** At most `limit` steps from `s` of a program of `slots` slots; a step that fails
      changes nothing. */
  function Drive(step: State -> Outcome, slots: nat, s: State, limit: nat): (e: Ending)
    ensures e.executed <= limit
    decreases limit
  {
    if s.pc >= slots then Ending(Err(EndOfProgram), s, 0)
    else if limit == 0 then Ending(Err(InstructionLimitExceeded), s, 0)
    else match step(s)
      case Done(v) => Ending(Ok(v), s, 1)
      case Fail(err) => Ending(Err(err), s, 1)
      case Next(s') =>
        var rest := Drive(step, slots, s', limit - 1);
        rest.(executed := rest.executed + 1)
  }

  function Stepper(env: Env): State -> Outcome
    requires env.Valid()
  {
    (s: State) => if s.pc < env.Slots() then Step(env, s) else Fail(EndOfProgram)
  }

  /** A run of the program of `env`. */
  function Run(env: Env, s: State, limit: nat): Ending
    requires env.Valid()
  {
    Drive(Stepper(env), env.Slots(), s, limit)
  }

  // ---- properties ---------------------------------------------------------------------------

  /** A store followed by a load of the same place gives the value cut to its width. */
  lemma StoreThenLoad(env: Env, stack: Stack, addr: nat, width: nat, value: Word)
    requires InStack(env.stackBase, addr, width)
    ensures var after := WriteStack(env, stack, addr, width, value);
            && after.Some? && ReadMemory(env, after.value, addr, width).Some?
            && Number(ReadMemory(env, after.value, addr, width).value) == value % Pow2(8 * width)
  {
    var at := addr - env.stackBase;
    var after := stack[..at] + Le(width, value) + stack[at + width..];
    assert after[at..at + width] == Le(width, value);
    ReadBackCut(width, value);
  }

  /** Whatever does not touch the stored bytes reads as before. */
  lemma StoreElsewhere(env: Env, stack: Stack, addr: nat, width: nat, value: Word, other: nat, len: nat)
    requires InStack(env.stackBase, addr, width)
    requires other + len <= addr || addr + width <= other || !InStack(env.stackBase, other, len)
    ensures ReadMemory(env, WriteStack(env, stack, addr, width, value).value, other, len) == ReadMemory(env, stack, other, len)
  {
    if InStack(env.stackBase, other, len) {
      var at, o := addr - env.stackBase, other - env.stackBase;
      var after := stack[..at] + Le(width, value) + stack[at + width..];
      assert after[o..o + len] == stack[o..o + len];
    }
  }

  /** A read stays inside the stack or inside one region, and fails only outside all. */
  lemma {:induction false} ReadStaysInside(env: Env, stack: Stack, addr: nat, len: nat)
    ensures ReadMemory(env, stack, addr, len).None? <==>
              !InStack(env.stackBase, addr, len) && forall r :: r in env.readOnly ==> !InRegion(r, addr, len)
    ensures var got := ReadMemory(env, stack, addr, len);
            got.Some? && !InStack(env.stackBase, addr, len) ==>
              exists r :: r in env.readOnly && InRegion(r, addr, len)
                          && got.value == r.bytes[addr - r.base..addr - r.base + len]
  {
    RegionsStayInside(env.readOnly, addr, len);
  }

  lemma {:induction false} RegionsStayInside(rs: seq<ReadOnly>, addr: nat, len: nat)
    ensures ReadRegions(rs, addr, len).None? <==> forall r :: r in rs ==> !InRegion(r, addr, len)
    ensures var got := ReadRegions(rs, addr, len);
            got.Some? ==> exists r :: r in rs && InRegion(r, addr, len)
                                      && got.value == r.bytes[addr - r.base..addr - r.base + len]
  {
    if rs != [] {
      RegionsStayInside(rs[1..], addr, len);
      assert rs == [rs[0]] + rs[1..];
    }
  }

  /** The program counter never leaves the program by more than falling off its end. */
  lemma StepStaysInside(env: Env, s: State)
    requires env.Valid() && s.pc < env.Slots()
    ensures Step(env, s).Next? ==> Step(env, s).state.pc <= env.Slots()
  {
  }

  /** A larger budget cannot change a run that ended within its budget. */
  lemma {:induction false} BudgetIrrelevant(step: State -> Outcome, slots: nat, s: State, limit: nat, more: nat)
    requires limit <= more && Drive(step, slots, s, limit).result != Err(InstructionLimitExceeded)
    ensures Drive(step, slots, s, more) == Drive(step, slots, s, limit)
    decreases limit
  {
    if s.pc < slots && limit > 0 && step(s).Next? {
      BudgetIrrelevant(step, slots, step(s).state, limit - 1, more - 1);
    }
  }

  lemma {:induction false} DriveToLimit(step: State -> Outcome, slots: nat, s: State, limit: nat)
    requires Drive(step, slots, s, limit).result == Err(InstructionLimitExceeded)
    requires forall t :: step(t) != Fail(InstructionLimitExceeded)
    ensures Drive(step, slots, s, limit).executed == limit
    decreases limit
  {
    if limit > 0 && step(s).Next? {
      DriveToLimit(step, slots, step(s).state, limit - 1);
    }
  }

  lemma HelperNeverLimits(env: Env, s: State, id: nat)
    ensures CallHelper(env, s, id) != Err(InstructionLimitExceeded)
  {
  }

  lemma StepNeverLimits(env: Env, s: State)
    requires env.Valid() && s.pc < env.Slots()
    ensures Step(env, s) != Fail(InstructionLimitExceeded)
  {
    HelperNeverLimits(env, s.(pc := s.pc + 1), Low32(Fetch(env.prog, s.pc).imm));
  }

  /** The limit is reported only after exactly that many instructions. */
  lemma LimitIsReached(env: Env, s: State, limit: nat)
    requires env.Valid() && Run(env, s, limit).result == Err(InstructionLimitExceeded)
    ensures Run(env, s, limit).executed == limit
  {
    forall t: State ensures Stepper(env)(t) != Fail(InstructionLimitExceeded) {
      if t.pc < env.Slots() {
        StepNeverLimits(env, t);
      }
    }
    DriveToLimit(Stepper(env), env.Slots(), s, limit);
  }
}
