/**
The system stop protocol (arch/kipi/src/stop.rs): one compare-exchange elects the
orchestrator and publishes the request; every other CPU acknowledges as its last
shared write and parks.  Any number of CPUs may call `stop_other_cpus`, and any CPU may
raise IPIs for other reasons at any time; one that is sent stays outstanding until it is
taken, or may get lost when its CPU has not initialised its queue.  A timeout is a
nondeterministic exit from the wait loop; after `stop_other_cpus` returns the caller
enters the power terminal.
*/
module StopProtocol {
  import opened Prelude

  /** What a CPU is doing outside its IPI handler. */
  datatype Task =
    | Working
    | Claiming                             // readiness checked, compare-exchange next
    | Losing                               // lost the claim: about to log
    | Acking                               // interrupts masked: about to acknowledge
    | Snapshot(k: nat, mask: set<nat>)     // collecting the CPUs to wait for
    | Notifying(mask: set<nat>)            // about to send the stop IPI
    | Waiting(k: nat, mask: set<nat>)      // one pass over the acknowledgements
    | Terminal(timedOut: bool, mask: set<nat>)
    | Parked

  /** What its IPI handler is doing. */
  datatype Handler = Out | Entered | Stopping | HandlerAcking

  datatype State = State(
    stopState: Option<nat>,      // STOP_STATE
    acked: seq<bool>,            // STOP_ACKED
    ready: seq<bool>,            // IPI_QUEUE_READY
    ipi: seq<bool>,              // an IPI is outstanding
    tasks: seq<Task>,
    handlers: seq<Handler>,
    writes: seq<nat>,            // history: shared writes made by each CPU
    claims: nat,                 // history: writes of STOP_STATE
    readyAtClaim: set<nat>)      // history: CPUs ready when the stop was claimed

  datatype Action =
    | Write(c: nat)      // ordinary work on shared state
    | Init(c: nat)       // kipi::init
    | Call(c: nat)       // stop_other_cpus: readiness check
    | Advance(c: nat)    // next operation of stop_other_cpus
    | Timeout(c: nat)    // deadline passed
    | Send(c: nat)       // an IPI for some other reason
    | Lose(c: nat)       // an IPI to a CPU that is not ready is lost
    | Interrupt(c: nat)  // ipi_handler entry
    | Handle(c: nat)     // next operation of handle_stop_request

  function Start(n: nat): State {
    State(None, seq(n, _ => false), seq(n, _ => false), seq(n, _ => false),
          seq(n, _ => Working), seq(n, _ => Out), seq(n, _ => 0), 0, {})
  }

  predicate Shape(s: State, n: nat) {
    |s.acked| == |s.ready| == |s.ipi| == |s.tasks| == |s.handlers| == |s.writes| == n
  }

  predicate Enabled(s: State, n: nat, a: Action)
    requires Shape(s, n)
  {
    a.c < n &&
    match a
    case Write(c) => s.tasks[c].Working? && s.handlers[c].Out?
    case Init(c) => s.tasks[c].Working? && s.handlers[c].Out?
    case Call(c) => s.tasks[c].Working? && s.handlers[c].Out? && s.ready[c]
    case Advance(c) => !s.tasks[c].Working? && !s.tasks[c].Terminal? && !s.tasks[c].Parked? && s.handlers[c].Out?
    case Timeout(c) => s.tasks[c].Waiting? && s.handlers[c].Out?
    case Send(_) => true
    case Lose(c) => !s.ready[c]
    case Interrupt(c) => s.ipi[c] && s.ready[c] && !s.tasks[c].Acking? && !s.tasks[c].Parked? && s.handlers[c].Out?
    case Handle(c) => !s.handlers[c].Out?
  }

  function Step(s: State, n: nat, a: Action): State
    requires Shape(s, n) && Enabled(s, n, a)
  {
    match a
    case Write(c) => Wrote(s, n, c)
    case Init(c) => Wrote(s, n, c).(ready := s.ready[c := true])
    case Call(c) => SetTask(s, n, c, Claiming)
    case Advance(c) => StepTask(s, n, c)
    case Timeout(c) => SetTask(s, n, c, Terminal(true, s.tasks[c].mask))
    case Send(c) => s.(ipi := s.ipi[c := true])
    case Lose(c) => s.(ipi := s.ipi[c := false])
    case Interrupt(c) => s.(ipi := s.ipi[c := false], handlers := s.handlers[c := Entered])
    case Handle(c) => StepHandler(s, n, c)
  }

  function Wrote(s: State, n: nat, c: nat): State
    requires Shape(s, n) && c < n
  {
    s.(writes := s.writes[c := s.writes[c] + 1])
  }

  function SetTask(s: State, n: nat, c: nat, t: Task): State
    requires Shape(s, n) && c < n
  {
    s.(tasks := s.tasks[c := t])
  }

  /** `ack_and_park`: the store, then the non-returnable loop. */
  function AckAndPark(s: State, n: nat, c: nat): State
    requires Shape(s, n) && c < n
  {
    SetTask(Wrote(s, n, c), n, c, Parked).(acked := s.acked[c := true], handlers := s.handlers[c := Out])
  }

  function StepTask(s: State, n: nat, c: nat): State
    requires Shape(s, n) && Enabled(s, n, Advance(c))
  {
    match s.tasks[c]
    case Claiming =>
      if s.stopState.None? then
        SetTask(Wrote(s, n, c), n, c, Snapshot(0, {})).(
          stopState := Some(c), claims := s.claims + 1, readyAtClaim := set d | 0 <= d < n && s.ready[d])
      else SetTask(s, n, c, Losing)
    case Losing => SetTask(Wrote(s, n, c), n, c, Acking)
    case Acking => AckAndPark(s, n, c)
    case Snapshot(k, mask) =>
      if k < n then SetTask(s, n, c, Snapshot(k + 1, if k != c && s.ready[k] then mask + {k} else mask))
      else SetTask(s, n, c, Notifying(mask))
    case Notifying(mask) => SetTask(s, n, c, Waiting(0, mask)).(ipi := seq(n, d requires 0 <= d < n => d != c || s.ipi[d]))
    case Waiting(k, mask) =>
      if k >= n then SetTask(s, n, c, Terminal(false, mask))
      else if k in mask && !s.acked[k] then SetTask(s, n, c, Waiting(0, mask))
      else SetTask(s, n, c, Waiting(k + 1, mask))
    case _ => s
  }

  function StepHandler(s: State, n: nat, c: nat): State
    requires Shape(s, n) && Enabled(s, n, Handle(c))
  {
    match s.handlers[c]
    case Entered =>
      if s.stopState.None? || s.stopState == Some(c) then s.(handlers := s.handlers[c := Out])
      else s.(handlers := s.handlers[c := Stopping])
    case Stopping => Wrote(s, n, c).(handlers := s.handlers[c := HandlerAcking])
    case HandlerAcking => AckAndPark(s, n, c)
    case Out => s
  }

  ghost predicate Runs(s: State, n: nat, run: seq<Action>, s': State)
    decreases |run|
  {
    && Shape(s, n)
    && if run == [] then s' == s else Enabled(s, n, run[0]) && Runs(Step(s, n, run[0]), n, run[1..], s')
  }

  ghost predicate Reachable(s: State, n: nat) {
    exists run :: Runs(Start(n), n, run, s)
  }

  // ---- the invariant ------------------------------------------------------------------------

  predicate Orchestrating(t: Task) {
    t.Snapshot? || t.Notifying? || t.Waiting? || t.Terminal?
  }

  predicate CpuOk(s: State, n: nat, c: nat)
    requires Shape(s, n) && c < n
  {
    && (Orchestrating(s.tasks[c]) <==> s.stopState == Some(c))
    && (s.acked[c] <==> s.tasks[c].Parked?)
    && (s.tasks[c].Parked? ==> s.handlers[c].Out?)
    && (s.tasks[c].Losing? || s.tasks[c].Acking? || s.handlers[c].Stopping? || s.handlers[c].HandlerAcking? || s.acked[c] ==>
          s.stopState.Some? && s.stopState != Some(c))
    && (s.tasks[c].Acking? ==> s.handlers[c].Out?)
  }

  /** The CPUs waited for are ready ones other than the orchestrator. */
  predicate OtherCpus(s: State, mask: set<nat>, n: nat, c: nat)
    requires Shape(s, n)
  {
    forall d :: d in mask ==> d < n && d != c && s.ready[d]
  }

  /** CPU `d` has acknowledged, is on its way to, or has the stop IPI ahead of it. */
  predicate Reached(s: State, n: nat, d: nat)
    requires Shape(s, n) && d < n
  {
    s.acked[d] || s.ipi[d] || !s.handlers[d].Out?
  }

  /** What the orchestrator has established. */
  predicate MaskOk(s: State, n: nat, c: nat)
    requires Shape(s, n) && c < n
  {
    match s.tasks[c]
    case Snapshot(k, mask) =>
      k <= n && OtherCpus(s, mask, n, c) && forall d :: d in s.readyAtClaim && d < k && d != c ==> d in mask
    case Notifying(mask) => OtherCpus(s, mask, n, c) && s.readyAtClaim - {c} <= mask
    case Waiting(k, mask) =>
      && k <= n && OtherCpus(s, mask, n, c) && s.readyAtClaim - {c} <= mask
      && forall d :: d in mask && d < k && d < n ==> s.acked[d]
    case Terminal(timedOut, mask) =>
      && OtherCpus(s, mask, n, c) && s.readyAtClaim - {c} <= mask
      && (!timedOut ==> forall d :: d in mask && d < n ==> s.acked[d])
    case _ => true
  }

  predicate Notified(t: Task) {
    t.Waiting? || t.Terminal?
  }

  /** The stop IPI of orchestrator `c` has reached CPU `d` if it is waited for. */
  predicate NotifiedOk(s: State, n: nat, c: nat, d: nat)
    requires Shape(s, n) && c < n && d < n
  {
    Notified(s.tasks[c]) && d in s.tasks[c].mask ==> Reached(s, n, d)
  }

  predicate Ok(s: State, n: nat) {
    && Shape(s, n)
    && (forall c :: 0 <= c < n ==> CpuOk(s, n, c))
    && (forall c :: 0 <= c < n ==> MaskOk(s, n, c))
    && (forall c, d :: 0 <= c < n && 0 <= d < n ==> NotifiedOk(s, n, c, d))
    && s.claims == (if s.stopState.None? then 0 else 1)
    && (forall d :: d in s.readyAtClaim ==> d < n && s.ready[d])
    && (s.stopState.Some? ==> s.stopState.value < n)
  }

  // ---- steps ----------------------------------------------------------------------------------

  /** Readiness and acknowledgements are never taken back, so what an orchestrator saw stays true. */
  lemma MaskKept(s: State, s': State, n: nat, d: nat)
    requires Shape(s, n) && Shape(s', n) && d < n && MaskOk(s, n, d) && s'.tasks[d] == s.tasks[d]
    requires forall e :: 0 <= e < n ==> (s.ready[e] ==> s'.ready[e]) && (s.acked[e] ==> s'.acked[e])
    requires s'.readyAtClaim == s.readyAtClaim || !Orchestrating(s.tasks[d])
    ensures MaskOk(s', n, d)
  {
  }

  lemma SnapshotMask(s: State, n: nat, c: nat)
    requires Shape(s, n) && Enabled(s, n, Advance(c)) && MaskOk(s, n, c) && s.tasks[c].Snapshot?
    requires forall e :: e in s.readyAtClaim ==> e < n && s.ready[e]
    ensures Shape(StepTask(s, n, c), n) && MaskOk(StepTask(s, n, c), n, c)
  {
  }

  lemma OwnMask(s: State, n: nat, c: nat)
    requires Shape(s, n) && Enabled(s, n, Advance(c)) && MaskOk(s, n, c)
    requires forall e :: e in s.readyAtClaim ==> e < n && s.ready[e]
    ensures Shape(StepTask(s, n, c), n) && MaskOk(StepTask(s, n, c), n, c)
  {
    if s.tasks[c].Snapshot? {
      SnapshotMask(s, n, c);
    }
  }

  lemma TaskCpu(s: State, n: nat, c: nat, d: nat)
    requires Shape(s, n) && Enabled(s, n, Advance(c)) && d < n && CpuOk(s, n, c) && CpuOk(s, n, d)
    ensures Shape(StepTask(s, n, c), n) && CpuOk(StepTask(s, n, c), n, d)
  {
  }

  lemma TaskMask(s: State, n: nat, c: nat, d: nat)
    requires Shape(s, n) && Enabled(s, n, Advance(c)) && d < n && CpuOk(s, n, c) && CpuOk(s, n, d)
    requires MaskOk(s, n, c) && MaskOk(s, n, d) && forall e :: e in s.readyAtClaim ==> e < n && s.ready[e]
    ensures Shape(StepTask(s, n, c), n) && MaskOk(StepTask(s, n, c), n, d)
  {
    if d == c {
      OwnMask(s, n, c);
    } else {
      MaskKept(s, StepTask(s, n, c), n, d);
    }
  }

  /** What has reached a ready CPU that is not the orchestrator stays with it until it acknowledges. */
  lemma ReachedKept(s: State, n: nat, a: Action, d: nat)
    requires Shape(s, n) && Enabled(s, n, a) && d < n && CpuOk(s, n, d) && s.ready[d]
    requires s.stopState.Some? && s.stopState != Some(d) && Reached(s, n, d)
    ensures Shape(Step(s, n, a), n) && Reached(Step(s, n, a), n, d)
  {
  }

  /** The broadcast reaches everybody else. */
  lemma NotifyingReaches(s: State, n: nat, c: nat, d: nat)
    requires Shape(s, n) && Enabled(s, n, Advance(c)) && d < n && d != c && s.tasks[c].Notifying?
    ensures Shape(StepTask(s, n, c), n) && Reached(StepTask(s, n, c), n, d)
  {
  }

  /** Nobody waits before notifying, and the mask stays the same from then on. */
  lemma WaitsAfterNotifying(s: State, n: nat, a: Action, c: nat)
    requires Shape(s, n) && Enabled(s, n, a) && c < n && Notified(Step(s, n, a).tasks[c])
    ensures (a == Advance(c) && s.tasks[c].Notifying?) || Notified(s.tasks[c])
    ensures s.tasks[c].mask == Step(s, n, a).tasks[c].mask
  {
  }

  lemma NotifiedStep(s: State, n: nat, a: Action, c: nat, d: nat)
    requires Shape(s, n) && Enabled(s, n, a) && c < n && d < n
    requires CpuOk(s, n, c) && CpuOk(s, n, d) && MaskOk(s, n, c) && NotifiedOk(s, n, c, d)
    ensures Shape(Step(s, n, a), n) && NotifiedOk(Step(s, n, a), n, c, d)
  {
    var s' := Step(s, n, a);
    StepShaped(s, n, a);
    if Notified(s'.tasks[c]) && d in s'.tasks[c].mask {
      WaitsAfterNotifying(s, n, a, c);
      if a == Advance(c) && s.tasks[c].Notifying? {
        NotifyingReaches(s, n, c, d);
      } else {
        ReachedKept(s, n, a, d);
      }
    }
  }

  lemma StepShaped(s: State, n: nat, a: Action)
    requires Shape(s, n) && Enabled(s, n, a)
    ensures Shape(Step(s, n, a), n)
  {
  }

  lemma TaskOk(s: State, n: nat, c: nat)
    requires Ok(s, n) && Enabled(s, n, Advance(c))
    ensures Ok(StepTask(s, n, c), n)
  {
    var s' := StepTask(s, n, c);
    assert CpuOk(s, n, c) && MaskOk(s, n, c);
    forall d | 0 <= d < n ensures CpuOk(s', n, d) && MaskOk(s', n, d) {
      assert CpuOk(s, n, d) && MaskOk(s, n, d);
      TaskCpu(s, n, c, d);
      TaskMask(s, n, c, d);
    }
    forall d, e | 0 <= d < n && 0 <= e < n ensures NotifiedOk(s', n, d, e) {
      assert CpuOk(s, n, d) && CpuOk(s, n, e) && MaskOk(s, n, d) && NotifiedOk(s, n, d, e);
      NotifiedStep(s, n, Advance(c), d, e);
    }
  }

  lemma OtherCpu(s: State, n: nat, a: Action, d: nat)
    requires Shape(s, n) && Enabled(s, n, a) && !a.Advance? && d < n && CpuOk(s, n, a.c) && CpuOk(s, n, d)
    ensures Shape(Step(s, n, a), n) && CpuOk(Step(s, n, a), n, d)
  {
  }

  lemma OtherMask(s: State, n: nat, a: Action, d: nat)
    requires Shape(s, n) && Enabled(s, n, a) && !a.Advance? && d < n && CpuOk(s, n, d) && MaskOk(s, n, d)
    requires CpuOk(s, n, a.c)
    ensures Shape(Step(s, n, a), n) && MaskOk(Step(s, n, a), n, d)
  {
    var s' := Step(s, n, a);
    if s'.tasks[d] == s.tasks[d] {
      MaskKept(s, s', n, d);
    }
  }

  lemma OtherOk(s: State, n: nat, a: Action)
    requires Ok(s, n) && Enabled(s, n, a) && !a.Advance?
    ensures Ok(Step(s, n, a), n)
  {
    var s' := Step(s, n, a);
    assert CpuOk(s, n, a.c);
    forall d | 0 <= d < n ensures CpuOk(s', n, d) && MaskOk(s', n, d) {
      assert CpuOk(s, n, d) && MaskOk(s, n, d);
      OtherCpu(s, n, a, d);
      OtherMask(s, n, a, d);
    }
    forall d, e | 0 <= d < n && 0 <= e < n ensures NotifiedOk(s', n, d, e) {
      assert CpuOk(s, n, d) && CpuOk(s, n, e) && MaskOk(s, n, d) && NotifiedOk(s, n, d, e);
      NotifiedStep(s, n, a, d, e);
    }
  }

  lemma StepOk(s: State, n: nat, a: Action)
    requires Ok(s, n) && Enabled(s, n, a)
    ensures Ok(Step(s, n, a), n)
  {
    match a
    case Advance(c) => TaskOk(s, n, c);
    case _ => OtherOk(s, n, a);
  }

  lemma {:induction false} RunOk(s: State, n: nat, run: seq<Action>, s': State)
    requires Ok(s, n) && Runs(s, n, run, s')
    ensures Ok(s', n)
    decreases |run|
  {
    if run != [] {
      StepOk(s, n, run[0]);
      RunOk(Step(s, n, run[0]), n, run[1..], s');
    }
  }

  lemma ReachableOk(s: State, n: nat)
    requires Reachable(s, n)
    ensures Ok(s, n)
  {
    var run :| Runs(Start(n), n, run, s);
    RunOk(Start(n), n, run, s);
  }

  // ---- the theorems ---------------------------------------------------------------------------

  /** `STOP_STATE` is written at most once; whoever won never acknowledges, never
      parks and is never on its way to. */
  lemma OneOrchestrator(s: State, n: nat)
    requires Reachable(s, n)
    ensures Shape(s, n) && s.claims <= 1 && (s.stopState.Some? <==> s.claims == 1)
    ensures s.stopState.Some? ==>
              var w := s.stopState.value;
              && w < n && !s.acked[w] && Orchestrating(s.tasks[w])
              && s.handlers[w] != Stopping && s.handlers[w] != HandlerAcking
    ensures forall c :: 0 <= c < n && Orchestrating(s.tasks[c]) ==> s.stopState == Some(c)
  {
    ReachableOk(s, n);
    if s.stopState.Some? {
      assert CpuOk(s, n, s.stopState.value);
    }
    forall c | 0 <= c < n && Orchestrating(s.tasks[c]) ensures s.stopState == Some(c) {
      assert CpuOk(s, n, c);
    }
  }

  lemma StepKeeps(s: State, n: nat, a: Action, c: nat)
    requires Ok(s, n) && Enabled(s, n, a) && c < n
    ensures s.stopState.Some? ==> Step(s, n, a).stopState == s.stopState
    ensures s.acked[c] ==> Step(s, n, a).acked[c] && Step(s, n, a).writes[c] == s.writes[c] && Step(s, n, a).tasks[c] == Parked
  {
    assert CpuOk(s, n, c) && CpuOk(s, n, a.c);
  }

  lemma {:induction false} RunKeeps(s: State, n: nat, run: seq<Action>, s': State, c: nat)
    requires Ok(s, n) && Runs(s, n, run, s') && c < n
    ensures Shape(s', n) && (s.stopState.Some? ==> s'.stopState == s.stopState)
    ensures s.acked[c] ==> s'.acked[c] && s'.writes[c] == s.writes[c] && s'.tasks[c] == s.tasks[c] == Parked
    decreases |run|
  {
    assert CpuOk(s, n, c);
    if run != [] {
      StepOk(s, n, run[0]);
      StepKeeps(s, n, run[0], c);
      RunKeeps(Step(s, n, run[0]), n, run[1..], s', c);
    }
  }

  /** An elected orchestrator stays elected, and an acknowledgement is the last
      shared write of its CPU: it is parked, and no continuation changes its write count. */
  lemma AckIsLastWrite(s: State, n: nat, run: seq<Action>, s': State, c: nat)
    requires Reachable(s, n) && Shape(s, n) && Runs(s, n, run, s') && c < n
    ensures Shape(s', n) && (s.stopState.Some? ==> s'.stopState == s.stopState)
    ensures s.acked[c] ==> s'.acked[c] && s'.writes[c] == s.writes[c] && s'.tasks[c] == s.tasks[c] == Parked
  {
    ReachableOk(s, n);
    RunKeeps(s, n, run, s', c);
  }

  /** When the orchestrator returns without a timeout, every other CPU its target pass saw
      IPI-ready, and so every one that was ready when the stop was claimed, has acknowledged,
      and in every continuation none of them makes another shared write. */
  lemma ReturnMeansStopped(s: State, n: nat, w: nat, run: seq<Action>, s': State)
    requires Reachable(s, n) && Shape(s, n) && w < n && s.tasks[w].Terminal? && !s.tasks[w].timedOut
    requires Runs(s, n, run, s')
    ensures Shape(s', n) && s'.stopState == Some(w) && s.readyAtClaim - {w} <= s.tasks[w].mask
    ensures forall c :: c in s.tasks[w].mask ==> c < n && c != w && s.acked[c] && s'.acked[c] && s'.writes[c] == s.writes[c]
  {
    ReachableOk(s, n);
    assert CpuOk(s, n, w) && MaskOk(s, n, w);
    RunKeeps(s, n, run, s', w);
    forall c | c in s.tasks[w].mask
      ensures c < n && c != w && s.acked[c] && s'.acked[c] && s'.writes[c] == s.writes[c]
    {
      RunKeeps(s, n, run, s', c);
    }
  }

  /** Only CPUs that are ready are waited for; one that is not ready when the target pass is
      over is never waited for. */
  lemma UnreadyNotAwaited(s: State, n: nat, w: nat, d: nat, run: seq<Action>, s': State)
    requires Reachable(s, n) && Shape(s, n) && w < n && d < n && !s.ready[d]
    requires s.tasks[w].Notifying? || s.tasks[w].Waiting?
    requires Runs(s, n, run, s')
    ensures Shape(s', n)
    ensures (s'.tasks[w].Notifying? || s'.tasks[w].Waiting? || s'.tasks[w].Terminal?) && d !in s'.tasks[w].mask
  {
    ReachableOk(s, n);
    assert MaskOk(s, n, w);
    RunMask(s, n, run, s', w, s.tasks[w].mask);
  }

  lemma {:induction false} RunMask(s: State, n: nat, run: seq<Action>, s': State, w: nat, mask: set<nat>)
    requires Ok(s, n) && w < n && Runs(s, n, run, s')
    requires (s.tasks[w].Notifying? || s.tasks[w].Waiting? || s.tasks[w].Terminal?) && s.tasks[w].mask == mask
    ensures Shape(s', n)
    ensures (s'.tasks[w].Notifying? || s'.tasks[w].Waiting? || s'.tasks[w].Terminal?) && s'.tasks[w].mask == mask
    decreases |run|
  {
    if run != [] {
      assert CpuOk(s, n, w);
      StepOk(s, n, run[0]);
      RunMask(Step(s, n, run[0]), n, run[1..], s', w, mask);
    }
  }

  /** Every CPU the orchestrator waits for has acknowledged, is in its handler on the way to
      parking, or has an IPI outstanding that it can take. */
  lemma StopIpiAhead(s: State, n: nat, w: nat, d: nat)
    requires Reachable(s, n) && Shape(s, n) && w < n && s.tasks[w].Waiting? && d in s.tasks[w].mask
    ensures d < n && s.ready[d] && (s.acked[d] || s.ipi[d] || !s.handlers[d].Out?)
  {
    ReachableOk(s, n);
    assert MaskOk(s, n, w) && NotifiedOk(s, n, w, d);
  }

  // ---- a stop request parks ---------------------------------------------------------------------

  /** Operations left in a handler that finds a stop request. */
  function HandlerLeft(h: Handler): nat {
    match h
    case Entered => 3
    case Stopping => 2
    case HandlerAcking => 1
    case Out => 0
  }

  function Handles(run: seq<Action>, c: nat): nat {
    if run == [] then 0 else (if run[0] == Handle(c) then 1 else 0) + Handles(run[1..], c)
  }

  lemma HandlerStep(s: State, n: nat, a: Action, c: nat)
    requires Ok(s, n) && Enabled(s, n, a) && c < n && s.stopState.Some? && s.stopState != Some(c)
    requires !s.handlers[c].Out?
    ensures var s' := Step(s, n, a);
            && s'.stopState == s.stopState
            && (a == Handle(c) ==> HandlerLeft(s'.handlers[c]) == HandlerLeft(s.handlers[c]) - 1)
            && (a != Handle(c) ==> s'.handlers[c] == s.handlers[c])
            && (s'.handlers[c].Out? ==> s'.tasks[c] == Parked && s'.acked[c])
  {
    assert CpuOk(s, n, c) && CpuOk(s, n, a.c);
  }

  /** Whatever else happens, a handler that finds a stop request for another orchestrator
      never returns: it leaves its CPU parked and acknowledged, after its third operation at
      the latest. */
  lemma {:induction false} HandlerParks(s: State, n: nat, run: seq<Action>, s': State, c: nat)
    requires Ok(s, n) && c < n && s.stopState.Some? && s.stopState != Some(c) && !s.handlers[c].Out? && Runs(s, n, run, s')
    ensures Shape(s', n) && (s'.handlers[c].Out? ==> s'.tasks[c] == Parked && s'.acked[c])
    ensures Handles(run, c) >= HandlerLeft(s.handlers[c]) ==> s'.tasks[c] == Parked && s'.acked[c]
    decreases |run|
  {
    if run != [] {
      var m := Step(s, n, run[0]);
      HandlerStep(s, n, run[0], c);
      StepOk(s, n, run[0]);
      if m.handlers[c].Out? {
        RunKeeps(m, n, run[1..], s', c);
      } else {
        HandlerParks(m, n, run[1..], s', c);
      }
    }
  }

  /** Said of reachable states: three operations of such a handler park its CPU. */
  lemma StopRequestParks(s: State, n: nat, run: seq<Action>, s': State, c: nat)
    requires Reachable(s, n) && Shape(s, n) && c < n && Runs(s, n, run, s')
    requires s.stopState.Some? && s.stopState != Some(c) && !s.handlers[c].Out?
    ensures Shape(s', n) && (s'.handlers[c].Out? ==> s'.tasks[c] == Parked && s'.acked[c])
    ensures Handles(run, c) >= 3 ==> s'.tasks[c] == Parked && s'.acked[c]
  {
    ReachableOk(s, n);
    HandlerParks(s, n, run, s', c);
  }
}
