/**
`handle_shootdown` as the loop it is, what one uninterrupted call does, and that
such a call is a run of the transition system which removes exactly the polling
CPU from everybody's set of missing acknowledgements.
*/
module TlbPoll {
  import opened Prelude
  import opened TlbModel
  import opened TlbSafety
  import opened TlbEpoch

  /** CPU `t` must act on this slot: a request is published, addressed to `t` and
      not yet acknowledged. */
  predicate Owes(slot: Slot, t: nat)
    requires t < |slot.acked| && t < |slot.targeted|
  {
    slot.publishedSeq != 0 && slot.acked[t] != slot.publishedSeq && slot.targeted[t]
  }

  function SlotRange(slot: Slot): Range {
    if slot.isFlushAll then None else Some(slot.publishedVaddr)
  }

  /** The slot once CPU `t` owes nothing for it: at most `t`'s own acknowledgement differs. */
  function Settle(slot: Slot, t: nat): (r: Slot)
    requires t < |slot.acked| && t < |slot.targeted|
    ensures |r.acked| == |slot.acked| && |r.targeted| == |slot.targeted| && !Owes(r, t)
    ensures r == slot.(acked := r.acked) && (!Owes(slot, t) ==> r == slot)
    ensures forall u :: 0 <= u < |slot.acked| && u != t ==> r.acked[u] == slot.acked[u]
  {
    if Owes(slot, t) then slot.(acked := slot.acked[t := slot.publishedSeq]) else slot
  }

  /** The flushes CPU `t` owes for `slots`, in slot order. */
  function Owed(slots: seq<Slot>, n: nat, t: nat): seq<FlushEvent>
    requires t < n && forall i :: 0 <= i < |slots| ==> SlotShape(slots[i], n)
  {
    if slots == [] then [] else
      var slot := slots[|slots| - 1];
      assert SlotShape(slot, n);
      Owed(slots[..|slots| - 1], n, t) + if Owes(slot, t) then [FlushEvent(t, SlotRange(slot))] else []
  }

  /** The shared memory `handle_shootdown` works on, for `n` present CPUs. */
  class Shootdown {
    const n: nat
    const slots: array<Slot>
    const pending: array<nat>
    const last: array<nat>
    var log: seq<FlushEvent>

    ghost predicate Valid()
      reads this, slots
    {
      && slots.Length == pending.Length == last.Length == n
      && pending != last && slots as object != pending && slots as object != last
      && forall i :: 0 <= i < n ==> SlotShape(slots[i], n)
    }

    constructor (n: nat)
      ensures Valid() && fresh(slots) && fresh(pending) && fresh(last) && this.n == n && log == []
      ensures slots[..] == Init(n).slots && pending[..] == Init(n).pending && last[..] == Init(n).last
    {
      this.n := n;
      slots := new Slot[n](_ => EmptySlot(n));
      pending := new nat[n](_ => 0);
      last := new nat[n](_ => 0);
      log := [];
    }

    /** `clear_targets` followed by `mark_target` for every target. */
    method SetTargets(c: nat, targets: set<nat>)
      requires Valid() && c < n
      modifies slots
      ensures Valid()
      ensures slots[c] == old(slots[c]).(targeted := slots[c].targeted)
      ensures forall t :: 0 <= t < n ==> (slots[c].targeted[t] <==> t in targets)
      ensures forall i :: 0 <= i < n && i != c ==> slots[i] == old(slots[i])
    {
      for t := 0 to n
        invariant Valid()
        invariant slots[c] == old(slots[c]).(targeted := slots[c].targeted)
        invariant forall u :: 0 <= u < t ==> !slots[c].targeted[u]
        invariant forall i :: 0 <= i < n && i != c ==> slots[i] == old(slots[i])
      {
        slots[c] := slots[c].(targeted := slots[c].targeted[t := false]);
      }
      for t := 0 to n
        invariant Valid()
        invariant slots[c] == old(slots[c]).(targeted := slots[c].targeted)
        invariant forall u :: 0 <= u < n ==> (slots[c].targeted[u] <==> u < t && u in targets)
        invariant forall i :: 0 <= i < n && i != c ==> slots[i] == old(slots[i])
      {
        if t in targets {
          slots[c] := slots[c].(targeted := slots[c].targeted[t := true]);
        }
      }
    }

    /** `note_pending_for_cpu` for every target. */
    method NotePending(targets: set<nat>)
      requires Valid()
      modifies pending
      ensures Valid()
      ensures forall t :: 0 <= t < n ==> pending[t] == old(pending[t]) + if t in targets then 1 else 0
    {
      for t := 0 to n
        invariant Valid()
        invariant forall u :: 0 <= u < n ==> pending[u] == old(pending[u]) + if u < t && u in targets then 1 else 0
      {
        if t in targets {
          pending[t] := pending[t] + 1;
        }
      }
    }

    /** The part of `flush_remote` before the wait: the slot then holds exactly the
        request under a fresh sequence number, and each target's epoch is one higher. */
    method Announce(c: nat, range: Range, mask: set<nat>) returns (id: nat)
      requires Valid() && c < n
      modifies slots, pending
      ensures Valid() && id == NextAfter(old(slots[c].nextSeq))
      ensures slots[c].nextSeq == slots[c].publishedSeq == id
      ensures TargetsMatch(slots[c], Request(id, range, mask - {c})) && PayloadMatches(slots[c], Request(id, range, mask - {c}))
      ensures slots[c].acked == old(slots[c].acked) && slots[c].isActive == old(slots[c].isActive)
      ensures forall i :: 0 <= i < n && i != c ==> slots[i] == old(slots[i])
      ensures forall t :: 0 <= t < n ==> pending[t] == old(pending[t]) + if t in mask && t != c then 1 else 0
    {
      id := NextAfter(slots[c].nextSeq);
      slots[c] := slots[c].(nextSeq := id);
      SetTargets(c, mask - {c});
      slots[c] := match range
        case Some(va) => slots[c].(isFlushAll := false, publishedVaddr := va)
        case None => slots[c].(isFlushAll := true);
      slots[c] := slots[c].(publishedSeq := id);
      NotePending(mask - {c});
    }

    /** One uninterrupted `handle_shootdown` on CPU `t`. */
    method HandleShootdown(t: nat)
      requires Valid() && t < n
      modifies this`log, slots, last
      ensures Valid()
      ensures old(pending[t] == last[t]) ==> log == old(log) && slots[..] == old(slots[..])
      ensures old(pending[t] != last[t]) ==> forall i :: 0 <= i < n ==> slots[i] == Settle(old(slots[i]), t)
      ensures old(pending[t] != last[t]) ==> log == old(log) + Owed(old(slots[..]), n, t)
      ensures last[t] == pending[t] && forall u :: 0 <= u < n && u != t ==> last[u] == old(last[u])
    {
      var pendingEpoch := pending[t];
      if pendingEpoch == last[t] {
        return;
      }
      ghost var was := slots[..];
      for i := 0 to n
        invariant Valid() && last[..] == old(last[..])
        invariant forall j :: 0 <= j < n ==> slots[j] == if j < i then Settle(was[j], t) else was[j]
        invariant log == old(log) + Owed(was[..i], n, t)
      {
        assert was[..i + 1][..i] == was[..i];
        HandleSlot(t, i);
      }
      assert was[..n] == was;
      last[t] := pendingEpoch;
    }

    /** One turn of the scan: what CPU `t` owes for slot `i` is flushed and acknowledged. */
    method HandleSlot(t: nat, i: nat)
      requires Valid() && t < n && i < n
      modifies this`log, slots
      ensures Valid() && slots[i] == Settle(old(slots[i]), t)
      ensures forall j :: 0 <= j < n && j != i ==> slots[j] == old(slots[j])
      ensures log == old(log) + if old(Owes(slots[i], t)) then [FlushEvent(t, SlotRange(old(slots[i])))] else []
    {
      var seq_ := slots[i].publishedSeq;
      if seq_ != 0 && slots[i].acked[t] != seq_ && slots[i].targeted[t] {
        log := log + [FlushEvent(t, SlotRange(slots[i]))];
        slots[i] := slots[i].(acked := slots[i].acked[t := seq_]);
      }
    }
  }

  // ---- an uninterrupted call is a run of the transition system --------------------

  /** `s` with one more activation `f` on CPU `t`. */
  function At(s: State, t: nat, f: Frame): State
    requires t < |s.frames|
  {
    s.(frames := s.frames[t := s.frames[t] + [f]])
  }

  /** CPU `t`'s handler, left alone, takes `s` to `s'`. */
  ghost predicate Leads(s: State, n: nat, t: nat, s': State) {
    exists run :: Runs(s, n, run, s') && forall a :: a in run ==> a in {Enter(t), Scan(t)}
  }

  lemma {:induction false} RunsConcat(s: State, n: nat, run1: seq<Action>, mid: State, run2: seq<Action>, s': State)
    requires Runs(s, n, run1, mid) && Runs(mid, n, run2, s')
    ensures Runs(s, n, run1 + run2, s')
    decreases |run1|
  {
    if run1 == [] {
      assert run1 + run2 == run2;
    } else {
      RunsConcat(Step(s, n, run1[0]), n, run1[1..], mid, run2, s');
      assert (run1 + run2)[1..] == run1[1..] + run2;
    }
  }

  lemma LeadsThen(s: State, n: nat, t: nat, mid: State, s': State)
    requires Leads(s, n, t, mid) && Leads(mid, n, t, s')
    ensures Leads(s, n, t, s')
  {
    var run1 :| Runs(s, n, run1, mid) && forall a :: a in run1 ==> a in {Enter(t), Scan(t)};
    var run2 :| Runs(mid, n, run2, s') && forall a :: a in run2 ==> a in {Enter(t), Scan(t)};
    RunsConcat(s, n, run1, mid, run2, s');
  }

  lemma StepLeads(s: State, n: nat, t: nat, a: Action)
    requires Shape(s, n) && Enabled(s, n, a) && a in {Enter(t), Scan(t)}
    ensures Leads(s, n, t, Step(s, n, a))
  {
    StepShape(s, n, a);
    assert Runs(Step(s, n, a), n, [a][1..], Step(s, n, a));
    assert Runs(s, n, [a], Step(s, n, a));
  }

  lemma AtShape(s: State, n: nat, t: nat, f: Frame)
    requires Shape(s, n) && t < n && FrameShape(f, n)
    ensures Shape(At(s, t, f), n) && Enabled(At(s, t, f), n, Scan(t))
  {
    var fs := At(s, t, f).frames[t];
    assert forall j :: 0 <= j < |s.frames[t]| ==> fs[j] == s.frames[t][j];
  }

  /** One operation of an innermost activation that does not return. */
  lemma ScanAt(s: State, n: nat, t: nat, f: Frame)
    requires Shape(s, n) && t < n && FrameShape(f, n) && f.pc != Compare && f.i < n
    ensures Leads(At(s, t, f), n, t, At(ScanMemory(s, n, t, f), t, ScanFrame(s, n, t, f)))
  {
    var a, f' := At(s, t, f), ScanFrame(s, n, t, f);
    AtShape(s, n, t, f);
    assert a.frames[t][|s.frames[t]| := f'] == s.frames[t] + [f'];
    assert a.frames[t := s.frames[t] + [f']] == s.frames[t := s.frames[t] + [f']];
    StepLeads(a, n, t, Scan(t));
  }

  ghost function Rank(pc: ScanPc): nat {
    match pc
    case Compare => 7 case LoadSeq => 6 case CheckAck => 5 case CheckTarget => 4
    case LoadKind => 3 case LoadVaddr => 2 case Flush => 1 case Ack => 0
  }

  /** Memory once activation `f`, left alone, is done with the slot it looks at. */
  ghost function DoneWithSlot(s: State, n: nat, t: nat, f: Frame): (r: State)
    requires Shape(s, n) && t < n && f.pc != Compare && f.i < n
    ensures Shape(r, n) && r == s.(slots := r.slots, log := r.log)
    decreases Rank(f.pc)
  {
    var s', f' := ScanMemory(s, n, t, f), ScanFrame(s, n, t, f);
    if f'.i > f.i then s' else DoneWithSlot(s', n, t, f')
  }

  lemma {:induction false} DoneStep(s: State, n: nat, t: nat, f: Frame)
    requires Shape(s, n) && t < n && f.pc != Compare && f.i < n
    ensures var s', f' := ScanMemory(s, n, t, f), ScanFrame(s, n, t, f);
            && Shape(s', n)
            && (f'.i != f.i ==> f' == NextSlot(f) && DoneWithSlot(s, n, t, f) == s')
            && (f'.i == f.i ==>
                  && f'.pc != Compare && Rank(f'.pc) < Rank(f.pc) && NextSlot(f') == NextSlot(f)
                  && DoneWithSlot(s, n, t, f) == DoneWithSlot(s', n, t, f'))
  {
  }

  lemma {:induction false} FinishSlot(s: State, n: nat, t: nat, f: Frame)
    requires Shape(s, n) && t < n && f.pc != Compare && f.i < n
    ensures Leads(At(s, t, f), n, t, At(DoneWithSlot(s, n, t, f), t, NextSlot(f)))
    decreases Rank(f.pc)
  {
    var s', f' := ScanMemory(s, n, t, f), ScanFrame(s, n, t, f);
    ScanAt(s, n, t, f);
    DoneStep(s, n, t, f);
    if f'.i == f.i {
      FinishSlot(s', n, t, f');
      LeadsThen(At(s, t, f), n, t, At(s', t, f'), At(DoneWithSlot(s', n, t, f'), t, NextSlot(f')));
    }
  }

  /** Slot `i` settled for CPU `t`, with the flush it asked for. */
  function SettleSlot(s: State, n: nat, t: nat, i: nat): State
    requires Shape(s, n) && t < n && i < n
  {
    var slot := s.slots[i];
    s.(slots := s.slots[i := Settle(slot, t)],
       log := s.log + if Owes(slot, t) then [FlushEvent(t, SlotRange(slot))] else [])
  }

  lemma FlushAndAck(s: State, n: nat, t: nat, f: Frame)
    requires Shape(s, n) && t < n && f.i < n && f.pc == LoadKind
    ensures DoneWithSlot(s, n, t, f) ==
            s.(slots := s.slots[f.i := s.slots[f.i].(acked := s.slots[f.i].acked[t := f.q])],
               log := s.log + [FlushEvent(t, SlotRange(s.slots[f.i]))])
  {
    var f1 := ScanFrame(s, n, t, f);
    var f2 := if f1.pc == Flush then f1 else ScanFrame(s, n, t, f1);
    assert f2 == Frame(f.epoch, Flush, f.i, f.q, SlotRange(s.slots[f.i]));
    assert DoneWithSlot(s, n, t, f) == DoneWithSlot(s, n, t, f2);
    var s' := ScanMemory(s, n, t, f2);
    assert DoneWithSlot(s, n, t, f2) == ScanMemory(s', n, t, f2.(pc := Ack));
  }

  lemma DoneSettles(s: State, n: nat, t: nat, e: nat, i: nat)
    requires Shape(s, n) && t < n && i < n
    ensures DoneWithSlot(s, n, t, Frame(e, LoadSeq, i, 0, None)) == SettleSlot(s, n, t, i)
  {
    var slot := s.slots[i];
    var f := Frame(e, LoadSeq, i, 0, None);
    assert s.slots[i := slot] == s.slots && s.log + [] == s.log;
    if slot.publishedSeq != 0 {
      var f1 := f.(pc := CheckAck, q := slot.publishedSeq);
      assert DoneWithSlot(s, n, t, f) == DoneWithSlot(s, n, t, f1);
      if slot.acked[t] != slot.publishedSeq {
        var f2 := f1.(pc := CheckTarget);
        assert DoneWithSlot(s, n, t, f1) == DoneWithSlot(s, n, t, f2);
        if slot.targeted[t] {
          FlushAndAck(s, n, t, f2.(pc := LoadKind));
        }
      }
    }
  }

  /** The first `i` slots settled for CPU `t`. */
  function SettleTo(s: State, n: nat, t: nat, i: nat): (r: State)
    requires Shape(s, n) && t < n && i <= n
    ensures Shape(r, n) && r == s.(slots := r.slots, log := r.log)
  {
    if i == 0 then s else SettleSlot(SettleTo(s, n, t, i - 1), n, t, i - 1)
  }

  /** `SettleTo` in the terms of `HandleShootdown`. */
  lemma {:induction false} SettleToIs(s: State, n: nat, t: nat, i: nat)
    requires Shape(s, n) && t < n && i <= n
    ensures forall j :: 0 <= j < n ==> SettleTo(s, n, t, i).slots[j] == if j < i then Settle(s.slots[j], t) else s.slots[j]
    ensures SettleTo(s, n, t, i).log == s.log + Owed(s.slots[..i], n, t)
  {
    if i > 0 {
      SettleToIs(s, n, t, i - 1);
      assert s.slots[..i][..i - 1] == s.slots[..i - 1];
    }
  }

  lemma {:induction false} ScanRun(s: State, n: nat, t: nat, e: nat, i: nat)
    requires Shape(s, n) && t < n && i <= n
    ensures Leads(At(s, t, Frame(e, LoadSeq, 0, 0, None)), n, t, At(SettleTo(s, n, t, i), t, Frame(e, LoadSeq, i, 0, None)))
  {
    var start := At(s, t, Frame(e, LoadSeq, 0, 0, None));
    if i == 0 {
      AtShape(s, n, t, Frame(e, LoadSeq, 0, 0, None));
      assert Runs(start, n, [], start);
    } else {
      var mid := SettleTo(s, n, t, i - 1);
      SlotRun(mid, n, t, e, i - 1);
      ScanRun(s, n, t, e, i - 1);
      LeadsThen(start, n, t, At(mid, t, Frame(e, LoadSeq, i - 1, 0, None)),
                At(SettleSlot(mid, n, t, i - 1), t, Frame(e, LoadSeq, i, 0, None)));
    }
  }

  /** The scan of slot `i` settles it. */
  lemma SlotRun(s: State, n: nat, t: nat, e: nat, i: nat)
    requires Shape(s, n) && t < n && i < n
    ensures Leads(At(s, t, Frame(e, LoadSeq, i, 0, None)), n, t, At(SettleSlot(s, n, t, i), t, Frame(e, LoadSeq, i + 1, 0, None)))
  {
    DoneSettles(s, n, t, e, i);
    FinishSlot(s, n, t, Frame(e, LoadSeq, i, 0, None));
  }

  /** The state after one uninterrupted `handle_shootdown` on CPU `t`. */
  function Poll(s: State, n: nat, t: nat): State
    requires Shape(s, n) && t < n
  {
    if s.pending[t] == s.last[t] then s.(polls := s.polls[t := s.polls[t] + 1])
    else SettleTo(s, n, t, n).(last := s.last[t := s.pending[t]], polls := s.polls[t := s.polls[t] + 1])
  }

  /** Entry on an unchanged epoch: the handler returns at once. */
  lemma FastPathRun(s: State, n: nat, t: nat)
    requires Shape(s, n) && t < n && s.pending[t] == s.last[t]
    ensures Leads(s, n, t, Poll(s, n, t))
  {
    var f0 := Frame(s.pending[t], Compare, 0, 0, None);
    var s0 := At(s, t, f0);
    AtShape(s, n, t, f0);
    StepLeads(s, n, t, Enter(t));
    StepLeads(s0, n, t, Scan(t));
    assert s0.frames[t][..|s.frames[t]|] == s.frames[t];
    assert s0.frames[t := s.frames[t]] == s.frames;
    LeadsThen(s, n, t, s0, Poll(s, n, t));
  }

  /** Entry on a changed epoch: the handler starts to scan. */
  lemma BeginRun(s: State, n: nat, t: nat)
    requires Shape(s, n) && t < n && s.pending[t] != s.last[t]
    ensures Leads(s, n, t, At(s, t, Frame(s.pending[t], LoadSeq, 0, 0, None)))
  {
    var f0, f1 := Frame(s.pending[t], Compare, 0, 0, None), Frame(s.pending[t], LoadSeq, 0, 0, None);
    var s0 := At(s, t, f0);
    AtShape(s, n, t, f0);
    StepLeads(s, n, t, Enter(t));
    StepLeads(s0, n, t, Scan(t));
    assert s0.frames[t][|s.frames[t]| := f1] == s.frames[t] + [f1];
    assert s0.frames[t := s.frames[t] + [f1]] == s.frames[t := s.frames[t] + [f1]];
    LeadsThen(s, n, t, s0, At(s, t, f1));
  }

  /** After the last slot the activation stores its snapshot and returns. */
  lemma FinishRun(m: State, n: nat, t: nat, e: nat)
    requires Shape(m, n) && t < n
    ensures Leads(At(m, t, Frame(e, LoadSeq, n, 0, None)), n, t,
                  m.(last := m.last[t := e], polls := m.polls[t := m.polls[t] + 1]))
  {
    var a := At(m, t, Frame(e, LoadSeq, n, 0, None));
    AtShape(m, n, t, Frame(e, LoadSeq, n, 0, None));
    assert a.frames[t][..|m.frames[t]|] == m.frames[t];
    assert a.frames[t := m.frames[t]] == m.frames;
    StepLeads(a, n, t, Scan(t));
  }

  lemma ScanningPoll(s: State, n: nat, t: nat)
    requires Shape(s, n) && t < n && s.pending[t] != s.last[t]
    ensures Leads(s, n, t, Poll(s, n, t))
  {
    var e := s.pending[t];
    var s1, s2 := At(s, t, Frame(e, LoadSeq, 0, 0, None)), At(SettleTo(s, n, t, n), t, Frame(e, LoadSeq, n, 0, None));
    assert Leads(s1, n, t, Poll(s, n, t)) by {
      ScanRun(s, n, t, e, n);
      FinishRun(SettleTo(s, n, t, n), n, t, e);
      LeadsThen(s1, n, t, s2, Poll(s, n, t));
    }
    BeginRun(s, n, t);
    LeadsThen(s, n, t, s1, Poll(s, n, t));
  }

  /** A handler invocation left alone is always able to finish, and has the effect
      of `HandleShootdown`. */
  lemma UninterruptedPoll(s: State, n: nat, t: nat)
    requires Shape(s, n) && t < n
    ensures exists run :: Runs(s, n, run, Poll(s, n, t)) && forall a :: a in run ==> a in {Enter(t), Scan(t)}
  {
    if s.pending[t] == s.last[t] {
      FastPathRun(s, n, t);
    } else {
      ScanningPoll(s, n, t);
    }
    assert Leads(s, n, t, Poll(s, n, t));
  }

  /** `Poll` changes memory as `HandleShootdown` does. */
  lemma PollEffect(s: State, n: nat, t: nat)
    requires Shape(s, n) && t < n
    ensures Poll(s, n, t).last == s.last[t := s.pending[t]]
    ensures s.pending[t] == s.last[t] ==> Poll(s, n, t).slots == s.slots && Poll(s, n, t).log == s.log
    ensures s.pending[t] != s.last[t] ==> forall i :: 0 <= i < n ==> Poll(s, n, t).slots[i] == Settle(s.slots[i], t)
    ensures s.pending[t] != s.last[t] ==> Poll(s, n, t).log == s.log + Owed(s.slots, n, t)
  {
    SettleToIs(s, n, t, n);
    assert s.slots[..n] == s.slots;
  }

  // ---- the decreasing measure -------------------------------------------------------

  /** The pairs (initiator, target) within `group` whose acknowledgement is missing. */
  ghost function Missing(s: State, n: nat, group: set<nat>): set<(nat, nat)>
    requires Shape(s, n) && (forall c :: c in group ==> c < n)
  {
    set c, t | c in group && t in group && s.flushers[c].Running? && t in s.flushers[c].req.targets
               && s.slots[c].acked[t] != s.flushers[c].req.id :: (c, t)
  }

  /** A waiting initiator's acknowledgements after a poll by `t`. */
  lemma PollAcks(s: State, n: nat, t: nat, c: nat, u: nat)
    requires Hinted(s, n) && t < n && c < n && u < n && s.frames[t] == []
    requires s.flushers[c].Running? && s.flushers[c].pc == Wait && u in s.flushers[c].req.targets
    ensures Shape(Poll(s, n, t), n)
    ensures Poll(s, n, t).slots[c].acked[u] == if u == t then s.flushers[c].req.id else s.slots[c].acked[u]
  {
    SettleToIs(s, n, t, n);
    assert SlotOk(s, n, c) && BumpsOk(s, n, c) && HintOk(s, n, c, u);
  }

  /** All of `group` waits: a poll by a member removes exactly the pairs it is the
      target of, so the number of missing acknowledgements falls whenever it owed one. */
  lemma PollShrinksMissing(s: State, n: nat, group: set<nat>, t: nat)
    requires Reachable(s, n) && Shape(s, n) && t in group && t < n && s.frames[t] == []
    requires forall c :: c in group ==> c < n && s.flushers[c].Running? && s.flushers[c].pc == Wait
    ensures Reachable(Poll(s, n, t), n) && Shape(Poll(s, n, t), n)
    ensures Poll(s, n, t).flushers == s.flushers && Poll(s, n, t).frames == s.frames
    ensures Missing(Poll(s, n, t), n, group) == set p | p in Missing(s, n, group) && p.1 != t
    ensures (exists c :: (c, t) in Missing(s, n, group)) ==> |Missing(Poll(s, n, t), n, group)| < |Missing(s, n, group)|
  {
    ReachableHinted(s, n);
    ReachablePoll(s, n, t);
    forall c, u | c in group && u in group && u in s.flushers[c].req.targets
      ensures Poll(s, n, t).slots[c].acked[u] == if u == t then s.flushers[c].req.id else s.slots[c].acked[u]
    {
      PollAcks(s, n, t, c, u);
    }
    MissingLess(s, Poll(s, n, t), n, group, t);
  }

  lemma MissingLess(s: State, s': State, n: nat, group: set<nat>, t: nat)
    requires Shape(s, n) && Shape(s', n) && t in group && s'.flushers == s.flushers
    requires forall c :: c in group ==> c < n && s.flushers[c].Running?
    requires forall c, u :: c in group && u in group && u in s.flushers[c].req.targets ==>
               s'.slots[c].acked[u] == if u == t then s.flushers[c].req.id else s.slots[c].acked[u]
    ensures Missing(s', n, group) == set p | p in Missing(s, n, group) && p.1 != t
    ensures (exists c :: (c, t) in Missing(s, n, group)) ==> |Missing(s', n, group)| < |Missing(s, n, group)|
  {
    var m, m' := Missing(s, n, group), Missing(s', n, group);
    assert m' == set p | p in m && p.1 != t;
    if c :| (c, t) in m {
      SubsetSize(m', m - {(c, t)});
    }
  }

  lemma ReachablePoll(s: State, n: nat, t: nat)
    requires Reachable(s, n) && Shape(s, n) && t < n
    ensures Reachable(Poll(s, n, t), n)
  {
    var run :| Runs(Init(n), n, run, s);
    UninterruptedPoll(s, n, t);
    var poll :| Runs(s, n, poll, Poll(s, n, t));
    RunsConcat(Init(n), n, run, s, poll, Poll(s, n, t));
  }

  lemma {:induction false} SubsetSize<T>(a: set<T>, b: set<T>)
    requires a <= b
    ensures |a| <= |b|
  {
    if x :| x in a {
      SubsetSize(a - {x}, b - {x});
    }
  }
}
