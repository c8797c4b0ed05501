/**
TLB shootdown (arch/kipi/src/tlb.rs) as a transition system.

Every atomic load, store and read-modify-write of `flush_remote` and
`handle_shootdown` is one step; steps of all CPUs interleave freely and are
sequentially consistent.  A CPU owns one request slot, one `flush_remote`
thread of control (the slot is held with preemption off and a second attempt is
denied), and a stack of `handle_shootdown` activations of which only the
innermost runs: handlers are entered from the IPI and from the wait loop, so an
activation may be interrupted at any point by a younger one.
*/
module TlbModel {
  import opened Prelude

  const U64_MAX: nat := 0xFFFF_FFFF_FFFF_FFFF

  /** `RequestSeq::next_after`: the successor in the cycle 1..2^64-1, which skips
      the "nothing published" value 0. */
  function NextAfter(raw: nat): (r: nat)
    requires raw <= U64_MAX
    ensures 0 < r <= U64_MAX
    ensures raw < U64_MAX ==> r > raw
  {
    if raw == U64_MAX then 1 else raw + 1
  }

  /** The sequence allocated `k` requests after `raw`. */
  function LaterSeq(raw: nat, k: nat): (r: nat)
    requires raw <= U64_MAX
    ensures r <= U64_MAX
    decreases k
  {
    if k == 0 then raw else NextAfter(LaterSeq(raw, k - 1))
  }

  /** Sequences count modulo 2^64-1, shifted by one so as to leave out 0. */
  lemma {:induction false} SequencesCycle(raw: nat, k: nat)
    requires 0 < raw <= U64_MAX
    ensures LaterSeq(raw, k) == (raw - 1 + k) % 0xFFFF_FFFF_FFFF_FFFF + 1
  {
    if k > 0 {
      SequencesCycle(raw, k - 1);
      CycleStep(raw - 1 + (k - 1));
    }
  }

  lemma CycleStep(x: nat)
    ensures (x + 1) % 0xFFFF_FFFF_FFFF_FFFF ==
            if x % 0xFFFF_FFFF_FFFF_FFFF == 0xFFFF_FFFF_FFFF_FFFE then 0 else x % 0xFFFF_FFFF_FFFF_FFFF + 1
  {
  }

  /** A sequence comes back exactly when a multiple of 2^64-1 requests were allocated since. */
  lemma SequenceReuse(raw: nat, k: nat)
    requires 0 < raw <= U64_MAX
    ensures LaterSeq(raw, k) == raw <==> k % 0xFFFF_FFFF_FFFF_FFFF == 0
  {
    SequencesCycle(raw, k);
    CycleMeets(raw - 1, k, LaterSeq(raw, k) - 1);
  }

  lemma CycleMeets(x: nat, k: nat, y: int)
    requires x < 0xFFFF_FFFF_FFFF_FFFF && y == (x + k) % 0xFFFF_FFFF_FFFF_FFFF
    ensures y == x <==> k % 0xFFFF_FFFF_FFFF_FFFF == 0
  {
    var q, r := k / 0xFFFF_FFFF_FFFF_FFFF, k % 0xFFFF_FFFF_FFFF_FFFF;
    assert x + k == 0xFFFF_FFFF_FFFF_FFFF * q + (x + r);
    if x + r < 0xFFFF_FFFF_FFFF_FFFF {
      assert y == x + r;
    } else {
      assert y == x + r - 0xFFFF_FFFF_FFFF_FFFF;
    }
  }

  /** What a request asks for: one page, or (`None`) the whole TLB. */
  type Range = Option<nat>

  predicate Covers(flushed: Range, wanted: Range) {
    flushed.None? || flushed == wanted
  }

  datatype Slot = Slot(
    nextSeq: nat, publishedSeq: nat, publishedVaddr: nat, isFlushAll: bool,
    isActive: bool, needsRetry: bool, targeted: seq<bool>, acked: seq<nat>)

  datatype Request = Request(id: nat, range: Range, targets: set<nat>)

  /** Program counter of `flush_remote`. */
  datatype FlushPc = Alloc | Clear | Mark | Kind | Vaddr | Publish | Bump | Wait | TakeRetry | Release

  datatype Flusher = Idle | Running(req: Request, pc: FlushPc, k: nat)

  /** Program counter of `handle_shootdown`. */
  datatype ScanPc = Compare | LoadSeq | CheckAck | CheckTarget | LoadKind | LoadVaddr | Flush | Ack

  /** One activation of `handle_shootdown`: its entry snapshot of the pending
      epoch, the slot it is looking at, and what it read there. */
  datatype Frame = Frame(epoch: nat, pc: ScanPc, i: nat, q: nat, range: Range)

  datatype FlushEvent = FlushEvent(cpu: nat, range: Range)

  /** The request and the epoch value of the newest bump of a slot for a target. */
  datatype BumpMark = BumpMark(id: nat, epoch: nat)

  /** Memory and control state, followed by history that no step reads. */
  datatype State = State(
    slots: seq<Slot>,
    pending: seq<nat>,
    last: seq<nat>,
    flushers: seq<Flusher>,
    frames: seq<seq<Frame>>,
    log: seq<FlushEvent>,          // every TLB flush, in order
    published: seq<Request>,       // newest published request of each slot
    publishedAt: seq<nat>,         // length of `log` when it was published
    bumps: seq<seq<BumpMark>>,     // newest bump, [initiator][target]
    bumped: set<(nat, nat, nat)>,  // every bump: initiator, request, target
    polls: seq<nat>)               // completed handler activations

  datatype Action =
    | Start(c: nat, range: Range, mask: set<nat>)  // try_activate succeeds
    | Denied(c: nat)                               // try_activate fails
    | Advance(c: nat)                              // next operation of flush_remote
    | GiveUp(c: nat)                               // the bounded wait expires
    | Enter(c: nat)                                // handler entry: load the pending epoch
    | Scan(c: nat)                                 // next operation of the innermost handler

  function EmptySlot(n: nat): Slot {
    Slot(0, 0, 0, false, false, false, seq(n, _ => false), seq(n, _ => 0))
  }

  function Init(n: nat): State {
    State(seq(n, _ => EmptySlot(n)), seq(n, _ => 0), seq(n, _ => 0), seq(n, _ => Idle), seq(n, _ => []),
          [], seq(n, _ => Request(0, None, {})), seq(n, _ => 0),
          seq(n, _ => seq(n, _ => BumpMark(0, 0))), {}, seq(n, _ => 0))
  }

  predicate SlotShape(slot: Slot, n: nat) {
    |slot.targeted| == n && |slot.acked| == n && slot.nextSeq <= U64_MAX
  }

  predicate FrameShape(f: Frame, n: nat) {
    if f.pc in {Compare, LoadSeq} then f.i <= n else f.i < n
  }

  predicate StackShape(fs: seq<Frame>, n: nat) {
    forall j :: 0 <= j < |fs| ==> FrameShape(fs[j], n)
  }

  predicate Shape(s: State, n: nat) {
    && |s.slots| == |s.pending| == |s.last| == |s.flushers| == |s.frames| == n
    && |s.published| == |s.publishedAt| == |s.bumps| == |s.polls| == n
    && (forall i :: 0 <= i < n ==> SlotShape(s.slots[i], n))
    && (forall i :: 0 <= i < n ==> |s.bumps[i]| == n)
    && (forall t :: 0 <= t < n ==> StackShape(s.frames[t], n))
  }

  /** When an action may happen.  Sequence numbers and epochs are 64-bit and are
      assumed not to wrap within a run. */
  predicate Enabled(s: State, n: nat, a: Action)
    requires Shape(s, n)
  {
    && a.c < n
    && match a
       case Start(c, _, mask) => !s.slots[c].isActive && (forall t :: t in mask ==> t < n)
       case Denied(c) => s.slots[c].isActive
       case Advance(c) =>
         && s.flushers[c].Running?
         && (s.flushers[c].pc == Alloc ==> s.slots[c].nextSeq < U64_MAX)
         && (s.flushers[c].pc == Bump && s.flushers[c].k < n ==> s.pending[s.flushers[c].k] < U64_MAX)
       case GiveUp(c) =>
         && s.flushers[c].Running? && s.flushers[c].pc == Wait && s.flushers[c].k < n
         && s.flushers[c].k in s.flushers[c].req.targets
         && s.slots[c].acked[s.flushers[c].k] != s.flushers[c].req.id
       case Enter(_) => true
       case Scan(c) => s.frames[c] != []
  }

  function Step(s: State, n: nat, a: Action): State
    requires Shape(s, n) && Enabled(s, n, a)
  {
    match a
    case Start(c, range, mask) =>
      s.(slots := s.slots[c := s.slots[c].(isActive := true)],
         flushers := s.flushers[c := Running(Request(0, range, mask - {c}), Alloc, 0)])
    case Denied(c) => s.(slots := s.slots[c := s.slots[c].(needsRetry := true)])
    case Advance(c) => AdvanceFlush(s, n, c)
    case GiveUp(c) =>
      s.(log := s.log + [FlushEvent(c, s.flushers[c].req.range)],
         flushers := s.flushers[c := s.flushers[c].(pc := Release)])
    case Enter(c) => s.(frames := s.frames[c := s.frames[c] + [Frame(s.pending[c], Compare, 0, 0, None)]])
    case Scan(c) => AdvanceScan(s, n, c)
  }

  /** The next operation of `flush_remote` on CPU `c`. */
  function AdvanceFlush(s: State, n: nat, c: nat): State
    requires Shape(s, n) && Enabled(s, n, Advance(c))
  {
    var f := s.flushers[c];
    var slot := s.slots[c];
    var next := f.(k := f.k + 1);
    match f.pc
    case Alloc =>
      var id := NextAfter(slot.nextSeq);
      s.(slots := s.slots[c := slot.(nextSeq := id)],
         flushers := s.flushers[c := Running(f.req.(id := id), Clear, 0)])
    case Clear =>
      if f.k < n then
        s.(slots := s.slots[c := slot.(targeted := slot.targeted[f.k := false])], flushers := s.flushers[c := next])
      else s.(flushers := s.flushers[c := Running(f.req, Mark, 0)])
    case Mark =>
      if f.k < n && f.k in f.req.targets then
        s.(slots := s.slots[c := slot.(targeted := slot.targeted[f.k := true])], flushers := s.flushers[c := next])
      else if f.k < n then s.(flushers := s.flushers[c := next])
      else s.(flushers := s.flushers[c := Running(f.req, Kind, 0)])
    case Kind =>
      s.(slots := s.slots[c := slot.(isFlushAll := f.req.range.None?)],
         flushers := s.flushers[c := Running(f.req, if f.req.range.None? then Publish else Vaddr, 0)])
    case Vaddr =>
      s.(slots := s.slots[c := slot.(publishedVaddr := if f.req.range.Some? then f.req.range.value else 0)],
         flushers := s.flushers[c := Running(f.req, Publish, 0)])
    case Publish =>
      s.(slots := s.slots[c := slot.(publishedSeq := f.req.id)],
         flushers := s.flushers[c := Running(f.req, Bump, 0)],
         published := s.published[c := f.req],
         publishedAt := s.publishedAt[c := |s.log|])
    case Bump =>
      if f.k < n && f.k in f.req.targets then
        s.(pending := s.pending[f.k := s.pending[f.k] + 1],
           flushers := s.flushers[c := next],
           bumps := s.bumps[c := s.bumps[c][f.k := BumpMark(f.req.id, s.pending[f.k] + 1)]],
           bumped := s.bumped + {(c, f.req.id, f.k)})
      else if f.k < n then s.(flushers := s.flushers[c := next])
      else s.(flushers := s.flushers[c := Running(f.req, Wait, 0)])
    case Wait =>
      if f.k < n && (f.k !in f.req.targets || slot.acked[f.k] == f.req.id) then
        s.(flushers := s.flushers[c := next])
      else if f.k < n then s
      else s.(flushers := s.flushers[c := Running(f.req, TakeRetry, 0)])
    case TakeRetry =>
      s.(slots := s.slots[c := slot.(needsRetry := false)], flushers := s.flushers[c := Running(f.req, Release, 0)])
    case Release =>
      s.(slots := s.slots[c := slot.(isActive := false)], flushers := s.flushers[c := Idle])
  }

  /** Go on to the next slot; what was read from this one is dead. */
  function NextSlot(f: Frame): Frame {
    Frame(f.epoch, LoadSeq, f.i + 1, 0, None)
  }

  /** Replace the innermost activation of CPU `c`. */
  function SetTop(s: State, n: nat, c: nat, f: Frame): (r: State)
    requires Shape(s, n) && c < n && s.frames[c] != []
  {
    s.(frames := s.frames[c := s.frames[c][|s.frames[c]| - 1 := f]])
  }

  /** Return from the innermost activation of CPU `c`. */
  function Pop(s: State, n: nat, c: nat): (r: State)
    requires Shape(s, n) && c < n && s.frames[c] != []
  {
    s.(frames := s.frames[c := s.frames[c][..|s.frames[c]| - 1]], polls := s.polls[c := s.polls[c] + 1])
  }

  /** Local state after the next operation of activation `f` on CPU `c`, while it
      looks at slot `f.i`. */
  function ScanFrame(s: State, n: nat, c: nat, f: Frame): Frame
    requires Shape(s, n) && c < n && f.i < n && f.pc != Compare
  {
    var slot := s.slots[f.i];
    match f.pc
    case LoadSeq => if slot.publishedSeq == 0 then NextSlot(f) else f.(pc := CheckAck, q := slot.publishedSeq)
    case CheckAck => if slot.acked[c] == f.q then NextSlot(f) else f.(pc := CheckTarget)
    case CheckTarget => if slot.targeted[c] then f.(pc := LoadKind) else NextSlot(f)
    case LoadKind => if slot.isFlushAll then f.(pc := Flush, range := None) else f.(pc := LoadVaddr)
    case LoadVaddr => f.(pc := Flush, range := Some(slot.publishedVaddr))
    case Flush => f.(pc := Ack)
    case Ack => NextSlot(f)
  }

  /** Memory after that operation. */
  function ScanMemory(s: State, n: nat, c: nat, f: Frame): State
    requires Shape(s, n) && c < n && f.i < n
  {
    match f.pc
    case Flush => s.(log := s.log + [FlushEvent(c, f.range)])
    case Ack => s.(slots := s.slots[f.i := s.slots[f.i].(acked := s.slots[f.i].acked[c := f.q])])
    case _ => s
  }

  /** The next operation of the innermost `handle_shootdown` on CPU `c`: return on
      an unchanged epoch, return after the last slot, or go on scanning. */
  function AdvanceScan(s: State, n: nat, c: nat): State
    requires Shape(s, n) && Enabled(s, n, Scan(c))
  {
    var f := s.frames[c][|s.frames[c]| - 1];
    assert FrameShape(f, n);
    if f.pc == Compare && f.epoch == s.last[c] then Pop(s, n, c)
    else if f.pc == LoadSeq && f.i == n then Pop(s, n, c).(last := s.last[c := f.epoch])
    else if f.pc == Compare then SetTop(s, n, c, f.(pc := LoadSeq, i := 0))
    else SetTop(ScanMemory(s, n, c, f), n, c, ScanFrame(s, n, c, f))
  }

  lemma AdvanceShape(s: State, n: nat, c: nat)
    requires Shape(s, n) && Enabled(s, n, Advance(c))
    ensures Shape(AdvanceFlush(s, n, c), n)
  {
  }

  lemma ScanShape(s: State, n: nat, c: nat)
    requires Shape(s, n) && Enabled(s, n, Scan(c))
    ensures Shape(AdvanceScan(s, n, c), n)
  {
    var fs := s.frames[c];
    var f := fs[|fs| - 1];
    assert StackShape(fs, n);
    assert FrameShape(f, n);
  }

  lemma StepShape(s: State, n: nat, a: Action)
    requires Shape(s, n) && Enabled(s, n, a)
    ensures Shape(Step(s, n, a), n)
  {
    match a
    case Advance(c) => AdvanceShape(s, n, c);
    case Scan(c) => ScanShape(s, n, c);
    case _ =>
  }

  /** `s'` is the end of the run that performs `run` from `s`. */
  ghost predicate Runs(s: State, n: nat, run: seq<Action>, s': State)
    decreases |run|
  {
    && Shape(s, n)
    && if run == [] then s' == s
       else Enabled(s, n, run[0]) && Runs(Step(s, n, run[0]), n, run[1..], s')
  }

  ghost predicate Reachable(s: State, n: nat) {
    exists run :: Runs(Init(n), n, run, s)
  }
}
