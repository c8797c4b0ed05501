/**
Progress of the stop protocol: once a stop is claimed, the IPIs it sends and the handlers
they enter are enough to park every CPU the orchestrator waits for, and then its wait ends.
*/
module StopLive {
  import opened Prelude
  import opened StopProtocol

  // ---- runs without a timeout ------------------------------------------------------------------

  ghost predicate Patient(s: State, n: nat, s': State) {
    exists run :: Runs(s, n, run, s') && forall a: Action :: a in run ==> !a.Timeout?
  }

  lemma {:induction false} RunsConcat(s: State, n: nat, run: seq<Action>, m: State, more: seq<Action>, s': State)
    requires Runs(s, n, run, m) && Runs(m, n, more, s')
    ensures Runs(s, n, run + more, s')
    decreases |run|
  {
    if run == [] {
      assert run + more == more;
    } else {
      RunsConcat(Step(s, n, run[0]), n, run[1..], m, more, s');
      assert (run + more)[1..] == run[1..] + more;
    }
  }

  lemma PatientHere(s: State, n: nat)
    requires Shape(s, n)
    ensures Patient(s, n, s)
  {
    assert Runs(s, n, [], s);
  }

  lemma PatientThen(s: State, n: nat, m: State, s': State)
    requires Patient(s, n, m) && Patient(m, n, s')
    ensures Patient(s, n, s')
  {
    var run :| Runs(s, n, run, m) && forall a: Action :: a in run ==> !a.Timeout?;
    var more :| Runs(m, n, more, s') && forall a: Action :: a in more ==> !a.Timeout?;
    RunsConcat(s, n, run, m, more, s');
  }

  lemma PatientStep(s: State, n: nat, a: Action)
    requires Shape(s, n) && Enabled(s, n, a) && !a.Timeout?
    ensures Shape(Step(s, n, a), n) && Patient(s, n, Step(s, n, a))
  {
    var run := [a];
    assert Runs(Step(s, n, a), n, run[1..], Step(s, n, a));
    assert Runs(s, n, run, Step(s, n, a));
  }

  lemma PatientReachable(s: State, n: nat, s': State)
    requires Reachable(s, n) && Patient(s, n, s')
    ensures Reachable(s', n) && Shape(s', n)
  {
    var run :| Runs(Start(n), n, run, s);
    var more :| Runs(s, n, more, s') && forall a: Action :: a in more ==> !a.Timeout?;
    RunsConcat(Start(n), n, run, s, more, s');
    ReachableOk(s', n);
  }

  // ---- one CPU parks ---------------------------------------------------------------------------

  /** What orchestrator `w` and everybody but `d` see is as it was; acknowledgements only come. */
  predicate OnlyBy(s: State, s': State, n: nat, d: nat)
    requires Shape(s, n) && Shape(s', n)
  {
    && s'.stopState == s.stopState && s'.ready == s.ready
    && (forall c :: 0 <= c < n && c != d ==> s'.tasks[c] == s.tasks[c] && s'.handlers[c] == s.handlers[c])
    && (forall c :: 0 <= c < n && s.acked[c] ==> s'.acked[c])
  }

  /** The handler of CPU `d` runs to its end. */
  lemma HandlerEnds(s: State, n: nat, d: nat) returns (s': State)
    requires Shape(s, n) && d < n && s.stopState.Some? && s.stopState != Some(d) && !s.handlers[d].Out?
    ensures Shape(s', n) && Patient(s, n, s') && s'.acked[d] && OnlyBy(s, s', n, d)
    decreases HandlerLeft(s.handlers[d])
  {
    PatientStep(s, n, Handle(d));
    var m := Step(s, n, Handle(d));
    if m.handlers[d].Out? {
      s' := m;
    } else {
      s' := HandlerEnds(m, n, d);
      PatientThen(s, n, m, s');
    }
  }

  /** A CPU the stop IPI has reached acknowledges. */
  lemma ReachedAcks(s: State, n: nat, d: nat) returns (s': State)
    requires Shape(s, n) && d < n && CpuOk(s, n, d) && s.ready[d] && Reached(s, n, d)
    requires s.stopState.Some? && s.stopState != Some(d)
    ensures Shape(s', n) && Patient(s, n, s') && s'.acked[d] && OnlyBy(s, s', n, d)
  {
    if s.acked[d] {
      s' := s;
      PatientHere(s, n);
    } else if !s.handlers[d].Out? {
      s' := HandlerEnds(s, n, d);
    } else if s.tasks[d].Acking? {
      PatientStep(s, n, Advance(d));
      s' := Step(s, n, Advance(d));
    } else {
      PatientStep(s, n, Interrupt(d));
      var m := Step(s, n, Interrupt(d));
      s' := HandlerEnds(m, n, d);
      PatientThen(s, n, m, s');
    }
  }

  /** The orchestrator is past its broadcast. */
  predicate WaitingFor(s: State, n: nat, w: nat, mask: set<nat>) {
    Shape(s, n) && w < n && s.stopState == Some(w) && s.tasks[w].Waiting? && s.tasks[w].mask == mask && s.handlers[w].Out?
  }

  lemma Awaited(s: State, n: nat, w: nat, mask: set<nat>, d: nat)
    requires Reachable(s, n) && WaitingFor(s, n, w, mask) && d in mask
    ensures d < n && d != w && s.ready[d] && Reached(s, n, d) && CpuOk(s, n, d)
  {
    ReachableOk(s, n);
    assert MaskOk(s, n, w) && NotifiedOk(s, n, w, d) && CpuOk(s, n, d);
  }

  /** All of `todo` acknowledge, one after the other. */
  lemma AllAck(s: State, n: nat, w: nat, mask: set<nat>, todo: set<nat>) returns (s': State)
    requires Reachable(s, n) && WaitingFor(s, n, w, mask) && todo <= mask
    requires forall d :: d in mask && d !in todo ==> d < n && s.acked[d]
    ensures Reachable(s', n) && Patient(s, n, s') && WaitingFor(s', n, w, mask)
    ensures forall d :: d in mask ==> d < n && s'.acked[d]
    decreases |todo|
  {
    if todo == {} {
      s' := s;
      PatientHere(s, n);
    } else {
      var d :| d in todo;
      Awaited(s, n, w, mask, d);
      var m := ReachedAcks(s, n, d);
      PatientReachable(s, n, m);
      s' := AllAck(m, n, w, mask, todo - {d});
      PatientThen(s, n, m, s');
    }
  }

  // ---- the orchestrator ------------------------------------------------------------------------

  function Advances(run: seq<Action>, w: nat): nat {
    if run == [] then 0 else (if run[0] == Advance(w) then 1 else 0) + Advances(run[1..], w)
  }

  lemma AckedStays(s: State, n: nat, a: Action, d: nat)
    requires Shape(s, n) && Enabled(s, n, a) && d < n && s.acked[d]
    ensures Step(s, n, a).acked[d]
  {
  }

  lemma WaitStep(s: State, n: nat, a: Action, w: nat)
    requires Shape(s, n) && Enabled(s, n, a) && w < n && s.tasks[w].Waiting? && a != Timeout(w) && s.stopState == Some(w)
    requires s.handlers[w] != Stopping && s.handlers[w] != HandlerAcking
    requires forall d :: d in s.tasks[w].mask && d < n ==> s.acked[d]
    ensures var t, t' := s.tasks[w], Step(s, n, a).tasks[w];
            && (a == Advance(w) && t.k >= n ==> t' == Terminal(false, t.mask))
            && (a == Advance(w) && t.k < n ==> t' == Waiting(t.k + 1, t.mask))
            && (a != Advance(w) ==> t' == t)
  {
  }

  /** Once everybody it waits for has acknowledged, the orchestrator returns without a timeout
      within `n + 1` operations of its own, however the other CPUs are scheduled. */
  lemma {:induction false} WaitEnds(s: State, n: nat, w: nat, run: seq<Action>, s': State)
    requires StopProtocol.Ok(s, n) && w < n && s.tasks[w].Waiting? && Runs(s, n, run, s') && Timeout(w) !in run
    requires forall d :: d in s.tasks[w].mask && d < n ==> s.acked[d]
    requires Advances(run, w) >= n + 1 - s.tasks[w].k
    ensures Shape(s', n) && s'.tasks[w] == Terminal(false, s.tasks[w].mask)
    decreases |run|
  {
    assert CpuOk(s, n, w) && MaskOk(s, n, w);
    var m := Step(s, n, run[0]);
    WaitStep(s, n, run[0], w);
    StepOk(s, n, run[0]);
    forall d | d in s.tasks[w].mask && d < n ensures m.acked[d] {
      AckedStays(s, n, run[0], d);
    }
    if m.tasks[w].Terminal? {
      TerminalStays(m, n, w, run[1..], s');
    } else {
      WaitEnds(m, n, w, run[1..], s');
    }
  }

  lemma {:induction false} TerminalStays(s: State, n: nat, w: nat, run: seq<Action>, s': State)
    requires StopProtocol.Ok(s, n) && w < n && s.tasks[w].Terminal? && Runs(s, n, run, s')
    ensures Shape(s', n) && s'.tasks[w] == s.tasks[w]
    decreases |run|
  {
    if run != [] {
      assert CpuOk(s, n, w);
      StepOk(s, n, run[0]);
      TerminalStays(Step(s, n, run[0]), n, w, run[1..], s');
    }
  }

  /** The orchestrator's own handler returns. */
  lemma OwnHandlerReturns(s: State, n: nat, w: nat) returns (s': State)
    requires Shape(s, n) && w < n && s.stopState == Some(w) && (s.handlers[w].Out? || s.handlers[w].Entered?)
    ensures Shape(s', n) && Patient(s, n, s') && s'.handlers[w].Out? && s' == s.(handlers := s'.handlers)
  {
    if s.handlers[w].Out? {
      s' := s;
      PatientHere(s, n);
    } else {
      PatientStep(s, n, Handle(w));
      s' := Step(s, n, Handle(w));
    }
  }

  /** It collects its targets and sends the stop IPI. */
  lemma Broadcasts(s: State, n: nat, w: nat) returns (s': State)
    requires Shape(s, n) && w < n && s.stopState == Some(w) && s.handlers[w].Out?
    requires (s.tasks[w].Snapshot? && s.tasks[w].k <= n) || s.tasks[w].Notifying?
    ensures Shape(s', n) && Patient(s, n, s') && s'.stopState == Some(w) && s'.handlers[w].Out? && s'.tasks[w].Waiting?
    decreases s.tasks[w].Snapshot?, if s.tasks[w].Snapshot? then n - s.tasks[w].k else 0
  {
    PatientStep(s, n, Advance(w));
    var m := Step(s, n, Advance(w));
    if m.tasks[w].Waiting? {
      s' := m;
    } else {
      s' := Broadcasts(m, n, w);
      PatientThen(s, n, m, s');
    }
  }

  /** With everybody acknowledged it goes once through its targets. */
  lemma Returns(s: State, n: nat, w: nat) returns (s': State)
    requires Shape(s, n) && w < n && s.tasks[w].Waiting? && s.handlers[w].Out? && s.tasks[w].k <= n
    requires forall d :: d in s.tasks[w].mask ==> d < n && s.acked[d]
    ensures Shape(s', n) && Patient(s, n, s') && s'.tasks[w] == Terminal(false, s.tasks[w].mask)
    decreases n - s.tasks[w].k
  {
    PatientStep(s, n, Advance(w));
    var m := Step(s, n, Advance(w));
    if m.tasks[w].Terminal? {
      s' := m;
    } else {
      s' := Returns(m, n, w);
      PatientThen(s, n, m, s');
    }
  }

  lemma Elected(s: State, n: nat, w: nat)
    requires Reachable(s, n) && s.stopState == Some(w)
    ensures Shape(s, n) && w < n && Orchestrating(s.tasks[w]) && (s.handlers[w].Out? || s.handlers[w].Entered?)
    ensures (s.tasks[w].Snapshot? || s.tasks[w].Waiting?) ==> s.tasks[w].k <= n
    ensures s.tasks[w].Terminal? && !s.tasks[w].timedOut ==> forall d :: d in s.tasks[w].mask ==> d < n && s.acked[d]
  {
    ReachableOk(s, n);
    assert CpuOk(s, n, w) && MaskOk(s, n, w);
  }

  /** From every reachable state in which a stop is claimed and has not timed out, the
      orchestrator can return without a timeout, with every CPU it waited for acknowledged. */
  lemma StopCanComplete(s: State, n: nat, w: nat) returns (s': State)
    requires Reachable(s, n) && s.stopState == Some(w) && Shape(s, n) && w < n
    requires !(s.tasks[w].Terminal? && s.tasks[w].timedOut)
    ensures Shape(s', n) && Patient(s, n, s') && s'.tasks[w].Terminal? && !s'.tasks[w].timedOut
    ensures forall d :: d in s'.tasks[w].mask ==> d < n && s'.acked[d]
  {
    Elected(s, n, w);
    if s.tasks[w].Terminal? {
      s' := s;
      PatientHere(s, n);
    } else {
      var m := OwnHandlerReturns(s, n, w);
      if !m.tasks[w].Waiting? {
        var b := Broadcasts(m, n, w);
        PatientThen(s, n, m, b);
        m := b;
      }
      PatientReachable(s, n, m);
      var mask := m.tasks[w].mask;
      Elected(m, n, w);
      var a := AllAck(m, n, w, mask, mask);
      PatientThen(s, n, m, a);
      Elected(a, n, w);
      s' := Returns(a, n, w);
      PatientThen(s, n, a, s');
      PatientReachable(s, n, s');
      StopStateKept(s', n, w);
    }
  }

  lemma StopStateKept(s: State, n: nat, w: nat)
    requires Reachable(s, n) && Shape(s, n) && w < n && s.tasks[w].Terminal? && !s.tasks[w].timedOut
    ensures forall d :: d in s.tasks[w].mask ==> d < n && s.acked[d]
  {
    ReachableOk(s, n);
    assert MaskOk(s, n, w);
  }
}
