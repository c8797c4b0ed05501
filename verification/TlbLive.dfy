/**
Progress of the shootdown protocol: every interrupted handler can finish, and from every
reachable state a running `flush_remote` can be completed without giving up.
*/
module TlbLive {
  import opened TlbModel
  import opened TlbSafety
  import opened TlbEpoch
  import opened TlbPoll

  // ---- handlers finish -----------------------------------------------------------------------

  /** Only what a handler of CPU `t` may write differs. */
  predicate HandlerWrote(s: State, s': State) {
    s' == s.(slots := s'.slots, log := s'.log, last := s'.last, polls := s'.polls, frames := s'.frames)
  }

  /** A scanning activation `f` on top of the stack of CPU `t` finishes. */
  lemma ScanReturns(s: State, n: nat, t: nat, f: Frame) returns (s': State)
    requires Shape(s, n) && t < n && FrameShape(f, n) && f.pc != Compare && (f.pc == LoadSeq || f.i < n)
    ensures Shape(s', n) && Leads(At(s, t, f), n, t, s') && HandlerWrote(s, s') && s'.frames == s.frames
    decreases n - f.i
  {
    if f.i == n {
      s' := s.(last := s.last[t := f.epoch], polls := s.polls[t := s.polls[t] + 1]);
      LastSlot(s, n, t, f);
    } else {
      var m := DoneWithSlot(s, n, t, f);
      FinishSlot(s, n, t, f);
      s' := ScanReturns(m, n, t, NextSlot(f));
      LeadsThen(At(s, t, f), n, t, At(m, t, NextSlot(f)), s');
    }
  }

  lemma LastSlot(m: State, n: nat, t: nat, f: Frame)
    requires Shape(m, n) && t < n && f.pc == LoadSeq && f.i == n
    ensures Leads(At(m, t, f), n, t, m.(last := m.last[t := f.epoch], polls := m.polls[t := m.polls[t] + 1]))
  {
    var a := At(m, t, f);
    AtShape(m, n, t, f);
    assert a.frames[t][..|m.frames[t]|] == m.frames[t];
    assert a.frames[t := m.frames[t]] == m.frames;
    StepLeads(a, n, t, Scan(t));
  }

  /** Any activation on top of the stack finishes. */
  lemma FrameReturns(s: State, n: nat, t: nat, f: Frame) returns (s': State)
    requires Shape(s, n) && t < n && FrameShape(f, n)
    ensures Shape(s', n) && Leads(At(s, t, f), n, t, s') && HandlerWrote(s, s') && s'.frames == s.frames
  {
    if f.pc != Compare {
      s' := ScanReturns(s, n, t, f);
    } else if f.epoch == s.last[t] {
      s' := s.(polls := s.polls[t := s.polls[t] + 1]);
      Unchanged(s, n, t, f);
    } else {
      var g := f.(pc := LoadSeq, i := 0);
      Begins(s, n, t, f);
      s' := ScanReturns(s, n, t, g);
      LeadsThen(At(s, t, f), n, t, At(s, t, g), s');
    }
  }

  lemma Unchanged(s: State, n: nat, t: nat, f: Frame)
    requires Shape(s, n) && t < n && FrameShape(f, n) && f.pc == Compare && f.epoch == s.last[t]
    ensures Leads(At(s, t, f), n, t, s.(polls := s.polls[t := s.polls[t] + 1]))
  {
    var a := At(s, t, f);
    AtShape(s, n, t, f);
    assert a.frames[t][..|s.frames[t]|] == s.frames[t];
    assert a.frames[t := s.frames[t]] == s.frames;
    StepLeads(a, n, t, Scan(t));
  }

  lemma Begins(s: State, n: nat, t: nat, f: Frame)
    requires Shape(s, n) && t < n && FrameShape(f, n) && f.pc == Compare && f.epoch != s.last[t]
    ensures Leads(At(s, t, f), n, t, At(s, t, f.(pc := LoadSeq, i := 0)))
  {
    var a, g := At(s, t, f), f.(pc := LoadSeq, i := 0);
    AtShape(s, n, t, f);
    assert a.frames[t][|s.frames[t]| := g] == s.frames[t] + [g];
    assert a.frames[t := s.frames[t] + [g]] == s.frames[t := s.frames[t] + [g]];
    StepLeads(a, n, t, Scan(t));
  }

  lemma LeadsHere(s: State, n: nat, t: nat)
    requires Shape(s, n)
    ensures Leads(s, n, t, s)
  {
    assert Runs(s, n, [], s);
  }

  /** Every handler activation of CPU `t` returns when it is left alone. */
  lemma HandlersReturn(s: State, n: nat, t: nat) returns (s': State)
    requires Shape(s, n) && t < n
    ensures Shape(s', n) && Leads(s, n, t, s') && HandlerWrote(s, s') && s'.frames == s.frames[t := []]
    decreases |s.frames[t]|
  {
    var fs := s.frames[t];
    if fs == [] {
      s' := s;
      LeadsHere(s, n, t);
      assert s.frames[t := []] == s.frames;
    } else {
      var b := s.(frames := s.frames[t := fs[..|fs| - 1]]);
      Uncovered(s, n, t);
      var m := FrameReturns(b, n, t, fs[|fs| - 1]);
      s' := HandlersReturn(m, n, t);
      LeadsThen(s, n, t, m, s');
    }
  }

  lemma Uncovered(s: State, n: nat, t: nat)
    requires Shape(s, n) && t < n && s.frames[t] != []
    ensures var fs := s.frames[t];
            var b := s.(frames := s.frames[t := fs[..|fs| - 1]]);
            Shape(b, n) && FrameShape(fs[|fs| - 1], n) && At(b, t, fs[|fs| - 1]) == s
  {
    var fs := s.frames[t];
    assert StackShape(fs, n);
    assert fs[..|fs| - 1] + [fs[|fs| - 1]] == fs;
    assert s.frames[t := fs[..|fs| - 1]][t := fs] == s.frames;
  }

  // ---- a call can be completed ---------------------------------------------------------------

  /** `s'` follows from `s` without any new call and without giving up. */
  ghost predicate Patient(s: State, n: nat, s': State) {
    exists run :: Runs(s, n, run, s') && forall a: Action :: a in run ==> !a.Start? && !a.GiveUp?
  }

  lemma PatientThen(s: State, n: nat, m: State, s': State)
    requires Patient(s, n, m) && Patient(m, n, s')
    ensures Patient(s, n, s')
  {
    var run1 :| Runs(s, n, run1, m) && forall a: Action :: a in run1 ==> !a.Start? && !a.GiveUp?;
    var run2 :| Runs(m, n, run2, s') && forall a: Action :: a in run2 ==> !a.Start? && !a.GiveUp?;
    RunsConcat(s, n, run1, m, run2, s');
  }

  lemma LeadsPatient(s: State, n: nat, t: nat, s': State)
    requires Leads(s, n, t, s')
    ensures Patient(s, n, s')
  {
    var run :| Runs(s, n, run, s') && forall a :: a in run ==> a in {Enter(t), Scan(t)};
  }

  lemma AdvancePatient(s: State, n: nat, c: nat)
    requires Shape(s, n) && Enabled(s, n, Advance(c))
    ensures Shape(AdvanceFlush(s, n, c), n) && Patient(s, n, AdvanceFlush(s, n, c))
  {
    AdvanceShape(s, n, c);
    var run := [Advance(c)];
    assert Runs(AdvanceFlush(s, n, c), n, run[1..], AdvanceFlush(s, n, c));
    assert Runs(s, n, run, AdvanceFlush(s, n, c));
  }

  lemma PatientReachable(s: State, n: nat, s': State)
    requires Reachable(s, n) && Patient(s, n, s')
    ensures Reachable(s', n)
  {
    var run :| Runs(Init(n), n, run, s);
    var more :| Runs(s, n, more, s') && forall a: Action :: a in more ==> !a.Start? && !a.GiveUp?;
    RunsConcat(Init(n), n, run, s, more, s');
  }

  /** Target `t` answers the waiting CPU `c`. */
  lemma TargetAnswers(s: State, n: nat, c: nat, t: nat) returns (s': State)
    requires Reachable(s, n) && Shape(s, n) && c < n && t < n
    requires s.flushers[c].Running? && s.flushers[c].pc == Wait && t in s.flushers[c].req.targets
    ensures Reachable(s', n) && Shape(s', n) && Patient(s, n, s') && s'.flushers == s.flushers
    ensures s'.slots[c].acked[t] == s.flushers[c].req.id
  {
    var m := HandlersReturn(s, n, t);
    LeadsPatient(s, n, t, m);
    PatientReachable(s, n, m);
    s' := Poll(m, n, t);
    UninterruptedPoll(m, n, t);
    assert Leads(m, n, t, s');
    LeadsPatient(m, n, t, s');
    PatientThen(s, n, m, s');
    PatientReachable(s, n, s');
    ReachableHinted(m, n);
    PollAcks(m, n, t, c, t);
  }

  /** The wait ends once every target has answered. */
  lemma WaitEnds(s: State, n: nat, c: nat) returns (s': State)
    requires Reachable(s, n) && Shape(s, n) && c < n
    requires s.flushers[c].Running? && s.flushers[c].pc == Wait && s.flushers[c].k <= n
    ensures Reachable(s', n) && Shape(s', n) && Patient(s, n, s')
    ensures s'.flushers[c] == Running(s.flushers[c].req, TakeRetry, 0)
    decreases n - s.flushers[c].k
  {
    s' := WaitTurn(s, n, c);
    if s.flushers[c].k < n {
      var m := s';
      s' := WaitEnds(m, n, c);
      PatientThen(s, n, m, s');
    }
  }

  /** One target's acknowledgement is awaited and found. */
  lemma WaitTurn(s: State, n: nat, c: nat) returns (s': State)
    requires Reachable(s, n) && Shape(s, n) && c < n
    requires s.flushers[c].Running? && s.flushers[c].pc == Wait && s.flushers[c].k <= n
    ensures Reachable(s', n) && Shape(s', n) && Patient(s, n, s')
    ensures s'.flushers[c] == if s.flushers[c].k < n then s.flushers[c].(k := s.flushers[c].k + 1)
                              else Running(s.flushers[c].req, TakeRetry, 0)
  {
    var f := s.flushers[c];
    var m := s;
    if f.k < n && f.k in f.req.targets {
      m := TargetAnswers(s, n, c, f.k);
    } else {
      assert Runs(s, n, [], s);
      assert Patient(s, n, s);
    }
    WaitPasses(m, n, c);
    AdvancePatient(m, n, c);
    s' := AdvanceFlush(m, n, c);
    PatientThen(s, n, m, s');
    PatientReachable(s, n, s');
  }

  lemma WaitPasses(s: State, n: nat, c: nat)
    requires Shape(s, n) && c < n && s.flushers[c].Running? && s.flushers[c].pc == Wait && s.flushers[c].k <= n
    requires s.flushers[c].k < n && s.flushers[c].k in s.flushers[c].req.targets ==>
               s.slots[c].acked[s.flushers[c].k] == s.flushers[c].req.id
    ensures Enabled(s, n, Advance(c))
    ensures AdvanceFlush(s, n, c).flushers[c] ==
            if s.flushers[c].k < n then s.flushers[c].(k := s.flushers[c].k + 1)
            else Running(s.flushers[c].req, TakeRetry, 0)
  {
  }

  /** How many stages of `flush_remote` are left before the wait. */
  function Left(pc: FlushPc): nat {
    match pc
    case Alloc => 7
    case Clear => 6
    case Mark => 5
    case Kind => 4
    case Vaddr => 3
    case Publish => 2
    case Bump => 1
    case _ => 0
  }

  /** Sequences and epochs have not run out. */
  predicate Room(s: State, n: nat, c: nat)
    requires Shape(s, n) && c < n
  {
    && (s.flushers[c].Running? && s.flushers[c].pc == Alloc ==> s.slots[c].nextSeq < U64_MAX)
    && (s.flushers[c].Running? && Left(s.flushers[c].pc) > 0 ==>
          forall t :: 0 <= t < n && (s.flushers[c].pc == Bump ==> t >= s.flushers[c].k) ==> s.pending[t] < U64_MAX)
  }

  lemma PreparesOne(s: State, n: nat, c: nat)
    requires Shape(s, n) && c < n && s.flushers[c].Running? && s.flushers[c].k <= n && Left(s.flushers[c].pc) > 0 && Room(s, n, c)
    ensures Enabled(s, n, Advance(c)) && Shape(AdvanceFlush(s, n, c), n)
    ensures var f, f' := s.flushers[c], AdvanceFlush(s, n, c).flushers[c];
            && f'.Running? && f'.k <= n && f'.req == f.req.(id := f'.req.id)
            && (f'.pc == Wait || Left(f'.pc) > 0) && Room(AdvanceFlush(s, n, c), n, c)
            && (Left(f'.pc) < Left(f.pc) || (f'.pc == f.pc && f.k < f'.k))
  {
    AdvanceShape(s, n, c);
  }

  /** The request gets published and announced. */
  lemma Prepares(s: State, n: nat, c: nat) returns (s': State)
    requires Reachable(s, n) && Shape(s, n) && c < n && s.flushers[c].Running? && s.flushers[c].k <= n && Room(s, n, c)
    requires s.flushers[c].pc == Wait || Left(s.flushers[c].pc) > 0
    ensures Reachable(s', n) && Shape(s', n) && Patient(s, n, s')
    ensures s'.flushers[c].Running? && s'.flushers[c].pc == Wait && s'.flushers[c].k <= n
    decreases Left(s.flushers[c].pc), n - s.flushers[c].k
  {
    if s.flushers[c].pc == Wait {
      s' := s;
      assert Runs(s, n, [], s);
    } else {
      PreparesOne(s, n, c);
      AdvancePatient(s, n, c);
      var m := AdvanceFlush(s, n, c);
      PatientReachable(s, n, m);
      s' := Prepares(m, n, c);
      PatientThen(s, n, m, s');
    }
  }

  /** The slot is given back. */
  lemma Releases(s: State, n: nat, c: nat) returns (s': State)
    requires Shape(s, n) && c < n && s.flushers[c].Running? && s.flushers[c].pc in {TakeRetry, Release}
    ensures Shape(s', n) && Patient(s, n, s') && s'.flushers[c].Idle? && !s'.slots[c].isActive
  {
    if s.flushers[c].pc == Release {
      s' := ReleasesSlot(s, n, c);
    } else {
      AdvancePatient(s, n, c);
      var m := AdvanceFlush(s, n, c);
      assert m.flushers[c].Running? && m.flushers[c].pc == Release;
      s' := ReleasesSlot(m, n, c);
      PatientThen(s, n, m, s');
    }
  }

  lemma ReleasesSlot(s: State, n: nat, c: nat) returns (s': State)
    requires Shape(s, n) && c < n && s.flushers[c].Running? && s.flushers[c].pc == Release
    ensures Shape(s', n) && Patient(s, n, s') && s'.flushers[c].Idle? && !s'.slots[c].isActive
  {
    AdvancePatient(s, n, c);
    s' := AdvanceFlush(s, n, c);
  }

  /** From every reachable state, whatever the other CPUs were interrupted at, the call
      CPU `c` is in can be completed without giving up, which frees the slot for the next. */
  lemma CallCanComplete(s: State, n: nat, c: nat) returns (s': State)
    requires Reachable(s, n) && Shape(s, n) && c < n && s.flushers[c].Running? && Room(s, n, c)
    ensures Shape(s', n) && Patient(s, n, s') && s'.flushers[c].Idle? && !s'.slots[c].isActive
  {
    assert s.flushers[c].k <= n by {
      ReachableSafe(s, n);
      assert SlotOk(s, n, c);
    }
    var m := s;
    assert Runs(s, n, [], s);
    assert Patient(s, n, s);
    if s.flushers[c].pc !in {TakeRetry, Release} {
      var p := Prepares(s, n, c);
      m := WaitEnds(p, n, c);
      PatientThen(s, n, p, m);
    }
    s' := Releases(m, n, c);
    PatientThen(s, n, m, s');
  }
}
