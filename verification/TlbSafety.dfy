/**
Safety of the shootdown protocol: when `flush_remote` stops waiting for a target
without giving up, that target has flushed a range covering the request after
the request was published, however handlers nest, stall, read half-written
payloads or overwrite newer acknowledgements with older ones.
*/
module TlbSafety {
  import opened TlbModel

  /** Nothing of slot `slot` is being rewritten: its newest sequence is published. */
  predicate Stable(slot: Slot) {
    slot.nextSeq == slot.publishedSeq != 0
  }

  predicate TargetsMatch(slot: Slot, r: Request) {
    forall t :: 0 <= t < |slot.targeted| ==> (slot.targeted[t] <==> t in r.targets)
  }

  predicate PayloadMatches(slot: Slot, r: Request) {
    && (slot.isFlushAll <==> r.range.None?)
    && (r.range.Some? ==> slot.publishedVaddr == r.range.value)
  }

  /** CPU `t` has flushed a range covering slot `i`'s request since its publication. */
  ghost predicate Flushed(s: State, i: nat, t: nat)
    requires i < |s.published| && i < |s.publishedAt|
  {
    exists k :: s.publishedAt[i] <= k < |s.log| && s.log[k].cpu == t && Covers(s.log[k].range, s.published[i].range)
  }

  /** What `flush_remote` has done to its slot so far. */
  predicate FlusherOk(n: nat, i: nat, slot: Slot, f: Flusher, r: Request)
    requires SlotShape(slot, n)
  {
    f.Running? ==>
      && i !in f.req.targets && (forall t :: t in f.req.targets ==> t < n)
      && f.k <= n
      && (f.pc in {Clear, Mark, Kind, Vaddr, Publish} ==> slot.nextSeq == f.req.id > slot.publishedSeq)
      && (f.pc == Clear ==> forall t :: 0 <= t < f.k ==> !slot.targeted[t])
      && (f.pc == Mark ==> forall t :: 0 <= t < n ==> (slot.targeted[t] <==> t < f.k && t in f.req.targets))
      && (f.pc in {Kind, Vaddr, Publish} ==> TargetsMatch(slot, f.req))
      && (f.pc == Vaddr ==> f.req.range.Some? && !slot.isFlushAll)
      && (f.pc == Publish ==> PayloadMatches(slot, f.req))
      && (f.pc in {Bump, Wait, TakeRetry} ==> f.req == r && Stable(slot) && slot.publishedSeq == r.id)
  }

  predicate SlotOk(s: State, n: nat, i: nat)
    requires Shape(s, n) && i < n
  {
    var slot := s.slots[i];
    && (slot.isActive <==> s.flushers[i].Running?)
    && slot.publishedSeq <= slot.nextSeq
    && s.published[i].id == slot.publishedSeq
    && s.publishedAt[i] <= |s.log|
    && (Stable(slot) ==> TargetsMatch(slot, s.published[i]) && PayloadMatches(slot, s.published[i]))
    && FlusherOk(n, i, slot, s.flushers[i], s.published[i])
  }

  ghost predicate AckOk(s: State, n: nat, i: nat, t: nat)
    requires Shape(s, n) && i < n && t < n
  {
    var slot := s.slots[i];
    && slot.acked[t] <= slot.publishedSeq
    && (Stable(slot) && slot.acked[t] == slot.publishedSeq ==> Flushed(s, i, t))
  }

  ghost predicate WaitOk(s: State, n: nat, i: nat)
    requires Shape(s, n) && i < n
  {
    var f := s.flushers[i];
    && (f.Running? && f.pc == Wait ==> forall t :: t in f.req.targets && t < f.k ==> Flushed(s, i, t))
    && (f.Running? && f.pc == TakeRetry ==> forall t :: t in f.req.targets ==> Flushed(s, i, t))
  }

  /** An activation on CPU `t`: what it read is the request it will acknowledge,
      unless the slot has moved on, in which case its acknowledgement is stale. */
  ghost predicate FrameOk(s: State, n: nat, t: nat, f: Frame)
    requires Shape(s, n) && t < n && FrameShape(f, n)
  {
    f.pc !in {Compare, LoadSeq} ==>
      var slot := s.slots[f.i];
      && 0 < f.q <= slot.publishedSeq
      && (Stable(slot) && f.q == slot.publishedSeq ==>
            && (f.pc == LoadVaddr ==> s.published[f.i].range.Some?)
            && (f.pc == Flush ==> f.range == s.published[f.i].range)
            && (f.pc == Ack ==> Flushed(s, f.i, t)))
  }

  ghost predicate StackOk(s: State, n: nat, t: nat)
    requires Shape(s, n) && t < n
  {
    forall j :: 0 <= j < |s.frames[t]| ==> StackShape(s.frames[t], n) && FrameOk(s, n, t, s.frames[t][j])
  }

  ghost predicate SlotsOk(s: State, n: nat)
    requires Shape(s, n)
  {
    forall i :: 0 <= i < n ==> SlotOk(s, n, i)
  }

  ghost predicate AcksOk(s: State, n: nat)
    requires Shape(s, n)
  {
    forall i, t :: 0 <= i < n && 0 <= t < n ==> AckOk(s, n, i, t)
  }

  ghost predicate WaitsOk(s: State, n: nat)
    requires Shape(s, n)
  {
    forall i :: 0 <= i < n ==> WaitOk(s, n, i)
  }

  ghost predicate StacksOk(s: State, n: nat)
    requires Shape(s, n)
  {
    forall t :: 0 <= t < n ==> StackOk(s, n, t)
  }

  ghost predicate Safe(s: State, n: nat) {
    Shape(s, n) && SlotsOk(s, n) && AcksOk(s, n) && WaitsOk(s, n) && StacksOk(s, n)
  }

  /** How a step may change slot `i` as seen by its readers: it keeps the
      published request, or is in the middle of rewriting it, or publishes a
      sequence number never used before. */
  predicate Evolves(s: State, s': State, n: nat, i: nat)
    requires Shape(s, n) && Shape(s', n) && i < n
  {
    var slot, slot' := s.slots[i], s'.slots[i];
    && s.log <= s'.log
    && slot.publishedSeq <= slot'.publishedSeq
    && (|| slot'.publishedSeq > slot.publishedSeq
        || !Stable(slot')
        || (slot.(acked := slot'.acked, isActive := slot'.isActive, needsRetry := slot'.needsRetry) == slot'
            && s'.published[i] == s.published[i] && s'.publishedAt[i] == s.publishedAt[i]))
  }

  lemma FlushedKept(s: State, s': State, n: nat, i: nat, t: nat)
    requires Shape(s, n) && Shape(s', n) && i < n
    requires s.log <= s'.log && s'.published[i] == s.published[i] && s'.publishedAt[i] == s.publishedAt[i]
    ensures Flushed(s, i, t) ==> Flushed(s', i, t)
  {
    if Flushed(s, i, t) {
      var k :| s.publishedAt[i] <= k < |s.log| && s.log[k].cpu == t && Covers(s.log[k].range, s.published[i].range);
      assert s'.log[k] == s.log[k];
    }
  }

  lemma FrameKept(s: State, s': State, n: nat, t: nat, f: Frame)
    requires Shape(s, n) && Shape(s', n) && t < n && FrameShape(f, n) && FrameOk(s, n, t, f)
    requires f.pc !in {Compare, LoadSeq} ==> Evolves(s, s', n, f.i)
    ensures FrameOk(s', n, t, f)
  {
    if f.pc == Ack && s'.published[f.i] == s.published[f.i] && s'.publishedAt[f.i] == s.publishedAt[f.i] {
      FlushedKept(s, s', n, f.i, t);
    }
  }

  lemma StacksKept(s: State, s': State, n: nat)
    requires Safe(s, n) && Shape(s', n)
    requires forall i :: 0 <= i < n ==> Evolves(s, s', n, i)
    requires s'.frames == s.frames
    ensures StacksOk(s', n)
  {
    forall t | 0 <= t < n ensures StackOk(s', n, t) {
      forall j | 0 <= j < |s.frames[t]| ensures FrameOk(s', n, t, s'.frames[t][j]) {
        assert StackOk(s, n, t);
        FrameKept(s, s', n, t, s.frames[t][j]);
      }
    }
  }

  lemma AckKept(s: State, s': State, n: nat, i: nat, t: nat)
    requires Shape(s, n) && Shape(s', n) && i < n && t < n && AckOk(s, n, i, t) && Evolves(s, s', n, i)
    requires s'.slots[i].acked[t] == s.slots[i].acked[t]
    ensures AckOk(s', n, i, t)
  {
    if s'.published[i] == s.published[i] && s'.publishedAt[i] == s.publishedAt[i] {
      FlushedKept(s, s', n, i, t);
    }
  }

  lemma AcksKept(s: State, s': State, n: nat)
    requires Safe(s, n) && Shape(s', n)
    requires forall i :: 0 <= i < n ==> Evolves(s, s', n, i) && s'.slots[i].acked == s.slots[i].acked
    ensures AcksOk(s', n)
  {
    forall i, t | 0 <= i < n && 0 <= t < n ensures AckOk(s', n, i, t) {
      AckKept(s, s', n, i, t);
    }
  }

  lemma WaitKept(s: State, s': State, n: nat, i: nat)
    requires Shape(s, n) && Shape(s', n) && i < n && WaitOk(s, n, i)
    requires s'.flushers[i] == s.flushers[i]
    requires s.log <= s'.log && s'.published[i] == s.published[i] && s'.publishedAt[i] == s.publishedAt[i]
    ensures WaitOk(s', n, i)
  {
    forall t | 0 <= t < n ensures Flushed(s, i, t) ==> Flushed(s', i, t) {
      FlushedKept(s, s', n, i, t);
    }
    var f := s.flushers[i];
    if f.Running? && f.pc in {Wait, TakeRetry} {
      forall t | t in f.req.targets && Flushed(s, i, t) ensures Flushed(s', i, t) {
        FlushedKept(s, s', n, i, t);
      }
    }
  }

  // ---- steps of flush_remote ------------------------------------------------

  /** A step of CPU `c`'s `flush_remote` leaves the other CPUs' slots alone. */
  predicate OnlySlot(s: State, s': State, n: nat, c: nat)
    requires Shape(s, n) && Shape(s', n)
  {
    && s'.log == s.log && s'.frames == s.frames
    && forall i :: 0 <= i < n && i != c ==>
         && s'.slots[i] == s.slots[i] && s'.flushers[i] == s.flushers[i]
         && s'.published[i] == s.published[i] && s'.publishedAt[i] == s.publishedAt[i]
  }

  lemma AdvanceFrame(s: State, n: nat, c: nat)
    requires Shape(s, n) && Enabled(s, n, Advance(c))
    ensures Shape(AdvanceFlush(s, n, c), n)
    ensures OnlySlot(s, AdvanceFlush(s, n, c), n, c)
    ensures AdvanceFlush(s, n, c).slots[c].acked == s.slots[c].acked
  {
    AdvanceShape(s, n, c);
  }

  lemma AdvancePrepares(s: State, n: nat, c: nat)
    requires Shape(s, n) && Enabled(s, n, Advance(c)) && SlotOk(s, n, c)
    requires s.flushers[c].pc in {Alloc, Clear, Mark, Kind, Vaddr}
    ensures Shape(AdvanceFlush(s, n, c), n)
    ensures SlotOk(AdvanceFlush(s, n, c), n, c) && Evolves(s, AdvanceFlush(s, n, c), n, c)
  {
    AdvanceShape(s, n, c);
    var f := s.flushers[c];
    match f.pc
    case Alloc =>
    case Clear =>
    case Mark =>
    case Kind =>
    case Vaddr =>
  }

  lemma AdvancePublishes(s: State, n: nat, c: nat)
    requires Shape(s, n) && Enabled(s, n, Advance(c)) && SlotOk(s, n, c)
    requires s.flushers[c].pc !in {Alloc, Clear, Mark, Kind, Vaddr}
    ensures Shape(AdvanceFlush(s, n, c), n)
    ensures SlotOk(AdvanceFlush(s, n, c), n, c) && Evolves(s, AdvanceFlush(s, n, c), n, c)
  {
    AdvanceShape(s, n, c);
    var f := s.flushers[c];
    match f.pc
    case Publish =>
    case Bump =>
    case Wait =>
    case TakeRetry =>
    case Release =>
  }

  lemma AdvanceWait(s: State, n: nat, c: nat)
    requires Safe(s, n) && Enabled(s, n, Advance(c))
    ensures Shape(AdvanceFlush(s, n, c), n)
    ensures WaitOk(AdvanceFlush(s, n, c), n, c)
  {
    AdvanceShape(s, n, c);
    assert SlotOk(s, n, c) && WaitOk(s, n, c);
    var s' := AdvanceFlush(s, n, c);
    var f := s.flushers[c];
    if f.pc == Wait {
      if f.k < n {
        assert AckOk(s, n, c, f.k);
      }
      forall t | t in f.req.targets && Flushed(s, c, t) ensures Flushed(s', c, t) {
        FlushedKept(s, s', n, c, t);
      }
    }
  }

  /** Safety follows from what happened to slot `c` alone. */
  lemma SlotStepSafe(s: State, s': State, n: nat, c: nat)
    requires Safe(s, n) && Shape(s', n) && c < n && OnlySlot(s, s', n, c)
    requires SlotOk(s', n, c) && Evolves(s, s', n, c) && WaitOk(s', n, c)
    requires s'.slots[c].acked == s.slots[c].acked
    ensures Safe(s', n)
  {
    forall i | 0 <= i < n ensures SlotOk(s', n, i) && WaitOk(s', n, i) && Evolves(s, s', n, i) {
      assert SlotOk(s, n, i);
      if i != c {
        WaitKept(s, s', n, i);
      }
    }
    StacksKept(s, s', n);
    AcksKept(s, s', n);
  }

  lemma AdvanceSafe(s: State, n: nat, c: nat)
    requires Safe(s, n) && Enabled(s, n, Advance(c))
    ensures Safe(AdvanceFlush(s, n, c), n)
  {
    assert SlotOk(s, n, c);
    AdvanceFrame(s, n, c);
    AdvanceWait(s, n, c);
    if s.flushers[c].pc in {Alloc, Clear, Mark, Kind, Vaddr} {
      AdvancePrepares(s, n, c);
    } else {
      AdvancePublishes(s, n, c);
    }
    SlotStepSafe(s, AdvanceFlush(s, n, c), n, c);
  }

  lemma StartSafe(s: State, n: nat, a: Action)
    requires Safe(s, n) && Enabled(s, n, a) && (a.Start? || a.Denied?)
    ensures Safe(Step(s, n, a), n)
  {
    StepShape(s, n, a);
    assert SlotOk(s, n, a.c) && WaitOk(s, n, a.c);
    if a.Denied? {
      forall t | Flushed(s, a.c, t) ensures Flushed(Step(s, n, a), a.c, t) {
        FlushedKept(s, Step(s, n, a), n, a.c, t);
      }
    }
    SlotStepSafe(s, Step(s, n, a), n, a.c);
  }

  // ---- steps that only extend the flush log, or only touch one handler stack --

  /** Slots, requests and control of `flush_remote` unchanged, except that CPU
      `c` may be done waiting. */
  predicate SameSlots(s: State, s': State, n: nat)
    requires Shape(s, n) && Shape(s', n)
  {
    s'.slots == s.slots && s'.published == s.published && s'.publishedAt == s.publishedAt && s.log <= s'.log
  }

  lemma LogStepSafe(s: State, s': State, n: nat)
    requires Safe(s, n) && Shape(s', n) && SameSlots(s, s', n)
    requires forall i :: 0 <= i < n ==>
               s'.flushers[i] == s.flushers[i] || (s.flushers[i].Running? && s'.flushers[i] == s.flushers[i].(pc := Release))
    ensures SlotsOk(s', n) && AcksOk(s', n) && WaitsOk(s', n)
  {
    forall i | 0 <= i < n ensures SlotOk(s', n, i) && WaitOk(s', n, i) && Evolves(s, s', n, i) {
      assert SlotOk(s, n, i) && WaitOk(s, n, i);
      if s'.flushers[i] == s.flushers[i] {
        WaitKept(s, s', n, i);
      }
    }
    AcksKept(s, s', n);
  }

  lemma GiveUpSafe(s: State, n: nat, c: nat)
    requires Safe(s, n) && Enabled(s, n, GiveUp(c))
    ensures Safe(Step(s, n, GiveUp(c)), n)
  {
    var s' := Step(s, n, GiveUp(c));
    StepShape(s, n, GiveUp(c));
    LogStepSafe(s, s', n);
    StacksKept(s, s', n);
  }

  /** All stacks stay correct when only CPU `c`'s innermost activation changed. */
  lemma TopStepStacks(s: State, s': State, n: nat, c: nat)
    requires Safe(s, n) && Shape(s', n) && c < n
    requires forall i :: 0 <= i < n ==> Evolves(s, s', n, i)
    requires forall t :: 0 <= t < n && t != c ==> s'.frames[t] == s.frames[t]
    requires forall j :: 0 <= j < |s'.frames[c]| ==>
               (j < |s.frames[c]| && s'.frames[c][j] == s.frames[c][j]) || FrameOk(s', n, c, s'.frames[c][j])
    ensures StacksOk(s', n)
  {
    forall t | 0 <= t < n ensures StackOk(s', n, t) {
      assert StackOk(s, n, t);
      forall j | 0 <= j < |s'.frames[t]| ensures FrameOk(s', n, t, s'.frames[t][j]) {
        if j < |s.frames[t]| && s'.frames[t][j] == s.frames[t][j] {
          FrameKept(s, s', n, t, s.frames[t][j]);
        }
      }
    }
  }

  lemma EnterSafe(s: State, n: nat, c: nat)
    requires Safe(s, n) && Enabled(s, n, Enter(c))
    ensures Safe(Step(s, n, Enter(c)), n)
  {
    var s' := Step(s, n, Enter(c));
    StepShape(s, n, Enter(c));
    LogStepSafe(s, s', n);
    TopStepStacks(s, s', n, c);
  }

  ghost function Top(s: State, n: nat, c: nat): Frame
    requires Shape(s, n) && Enabled(s, n, Scan(c))
  {
    s.frames[c][|s.frames[c]| - 1]
  }

  /** Handler steps up to and including the flush. */
  lemma ScanReadSafe(s: State, n: nat, c: nat)
    requires Safe(s, n) && Enabled(s, n, Scan(c)) && Top(s, n, c).pc != Ack
    ensures Safe(AdvanceScan(s, n, c), n)
  {
    var s' := AdvanceScan(s, n, c);
    var f := Top(s, n, c);
    ScanShape(s, n, c);
    LogStepSafe(s, s', n);
    assert StackOk(s, n, c) && FrameOk(s, n, c, f);
    if f.pc !in {Compare, LoadSeq} {
      assert SlotOk(s, n, f.i);
    }
    if f.pc == Flush {
      assert s'.log[|s.log|] == FlushEvent(c, f.range);
    }
    TopStepStacks(s, s', n, c);
  }

  lemma ScanAckSafe(s: State, n: nat, c: nat)
    requires Safe(s, n) && Enabled(s, n, Scan(c)) && Top(s, n, c).pc == Ack
    ensures Safe(AdvanceScan(s, n, c), n)
  {
    var s' := AdvanceScan(s, n, c);
    var f := Top(s, n, c);
    ScanShape(s, n, c);
    assert StackOk(s, n, c) && FrameOk(s, n, c, f);
    forall i | 0 <= i < n ensures SlotOk(s', n, i) && WaitOk(s', n, i) && Evolves(s, s', n, i) {
      assert SlotOk(s, n, i);
      WaitKept(s, s', n, i);
    }
    forall i, t | 0 <= i < n && 0 <= t < n ensures AckOk(s', n, i, t) {
      if i == f.i && t == c {
        FlushedKept(s, s', n, i, t);
      } else {
        AckKept(s, s', n, i, t);
      }
    }
    TopStepStacks(s, s', n, c);
  }

  lemma StepSafe(s: State, n: nat, a: Action)
    requires Safe(s, n) && Enabled(s, n, a)
    ensures Safe(Step(s, n, a), n)
  {
    match a
    case Start(_, _, _) => StartSafe(s, n, a);
    case Denied(_) => StartSafe(s, n, a);
    case Advance(c) => AdvanceSafe(s, n, c);
    case GiveUp(c) => GiveUpSafe(s, n, c);
    case Enter(c) => EnterSafe(s, n, c);
    case Scan(c) =>
      if Top(s, n, c).pc == Ack {
        ScanAckSafe(s, n, c);
      } else {
        ScanReadSafe(s, n, c);
      }
  }

  lemma InitSafe(n: nat)
    ensures Safe(Init(n), n)
  {
  }

  lemma {:induction false} RunSafe(s: State, n: nat, run: seq<Action>, s': State)
    requires Safe(s, n) && Runs(s, n, run, s')
    ensures Safe(s', n)
    decreases |run|
  {
    if run != [] {
      StepSafe(s, n, run[0]);
      RunSafe(Step(s, n, run[0]), n, run[1..], s');
    }
  }

  lemma ReachableSafe(s: State, n: nat)
    requires Reachable(s, n)
    ensures Safe(s, n)
  {
    var run :| Runs(Init(n), n, run, s);
    InitSafe(n);
    RunSafe(Init(n), n, run, s);
  }

  // ---- the theorems -----------------------------------------------------------

  /** An acknowledgement equal to the published sequence proves a covering flush
      after publication, in every reachable state. */
  lemma AckMeansFlushed(s: State, n: nat, i: nat, t: nat)
    requires Reachable(s, n) && i < n && t < n
    requires Shape(s, n) && Stable(s.slots[i]) && s.slots[i].acked[t] == s.slots[i].publishedSeq
    ensures exists k :: s.publishedAt[i] <= k < |s.log| && s.log[k].cpu == t && Covers(s.log[k].range, s.published[i].range)
  {
    ReachableSafe(s, n);
    assert AckOk(s, n, i, t);
  }

  /** When `flush_remote` is done waiting, every target flushed a covering range
      between the publication of this very request and now. */
  lemma ShootdownComplete(s: State, n: nat, c: nat)
    requires Reachable(s, n) && Shape(s, n) && c < n
    requires s.flushers[c].Running? && s.flushers[c].pc == TakeRetry
    ensures s.published[c] == s.flushers[c].req && s.slots[c].publishedSeq == s.flushers[c].req.id
    ensures forall t :: t in s.flushers[c].req.targets ==>
              exists k :: s.publishedAt[c] <= k < |s.log| && s.log[k].cpu == t && Covers(s.log[k].range, s.flushers[c].req.range)
  {
    ReachableSafe(s, n);
    assert WaitOk(s, n, c) && SlotOk(s, n, c);
    forall t | t in s.flushers[c].req.targets
      ensures exists k :: s.publishedAt[c] <= k < |s.log| && s.log[k].cpu == t && Covers(s.log[k].range, s.flushers[c].req.range)
    {
      assert Flushed(s, c, t);
    }
  }
}
