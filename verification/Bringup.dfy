/**
Bring-up of the secondary CPUs (core/kruntime/src/mp.rs:87-203, core/kruntime/src/lib.rs:241-247
and 372-397) as a transition system: the primary boots the present CPUs one by one and waits on
`SCHED_READY_CPUS`, publishes its own services through `INITED_CPUS` and waits for everybody
else's; each secondary runs its start-up steps.  Atomics are sequentially consistent and
starting a CPU does not fail.
*/
module Bringup {

  /** How far a secondary has come; the numbers order the stages. */
  datatype Stage = Off | Booting | Registered | Ready | Active | Served | Done
  {
    function Rank(): nat {
      match this
      case Off => 0
      case Booting => 1
      case Registered => 2   // its run queue exists
      case Ready => 3        // and is counted; from here it waits for the primary
      case Active => 4       // local interrupts are activated
      case Served => 5       // every service is prepared
      case Done => 6         // and counted
    }
  }

  datatype Phase = Starting(i: nat) | Waiting(i: nat) | Services | Publishing | Barrier | Passed

  /** `n` present CPUs, the boot CPU `p`, and the compile-time cap. The CPU id map has
      `cap` entries and drops every further CPU (arch/kcpu_id_map/src/cpu_id.rs:135-188),
      so no more are ever present. */
  datatype Config = Config(n: nat, p: nat, cap: nat) {
    predicate Valid() { p < n <= cap }
  }

  datatype State = State(
    phase: Phase,
    aps: seq<Stage>,
    secondaries: nat,
    schedReady: nat,
    inited: nat,
    stacks: map<nat, nat>,
    queues: set<nat>,    // CPUs whose run queue is registered
    active: set<nat>,    // secondaries that activated their local interrupts
    served: set<nat>)    // CPUs whose services are all prepared

  datatype Action = Primary | Ap(c: nat)

  function Init(g: Config): State {
    State(Starting(0), seq(g.n, _ => Off), 0, 1, 0, map[], {g.p}, {}, {})
  }

  ghost predicate Enabled(g: Config, s: State, a: Action) {
    |s.aps| == g.n && match a
                      case Primary => true
                      case Ap(c) => c < g.n && s.aps[c] != Off
  }

  function StepPrimary(g: Config, s: State): State
    requires |s.aps| == g.n && g.Valid()
  {
    match s.phase
    case Starting(i) =>
      if i >= g.n then s.(phase := Services)
      else if i == g.p || s.secondaries >= g.cap - 1 then s.(phase := Starting(i + 1))
      else s.(aps := s.aps[i := Booting], stacks := s.stacks[i := s.secondaries],
              secondaries := s.secondaries + 1, phase := Waiting(i))
    case Waiting(i) => if s.schedReady <= s.secondaries then s else s.(phase := Starting(i + 1))
    case Services => s.(served := s.served + {g.p}, phase := Publishing)
    case Publishing => s.(inited := s.inited + 1, phase := Barrier)
    case Barrier => if s.inited == g.n then s.(phase := Passed) else s
    case Passed => s
  }

  function StepAp(s: State, c: nat): State
    requires c < |s.aps| && s.aps[c] != Off
  {
    match s.aps[c]
    case Booting => s.(aps := s.aps[c := Registered], queues := s.queues + {c})
    case Registered => s.(aps := s.aps[c := Ready], schedReady := s.schedReady + 1)
    case Ready => if s.inited == 0 then s else s.(aps := s.aps[c := Active], active := s.active + {c})
    case Active => s.(aps := s.aps[c := Served], served := s.served + {c})
    case Served => s.(aps := s.aps[c := Done], inited := s.inited + 1)
    case Done => s
  }

  ghost function Step(g: Config, s: State, a: Action): State
    requires g.Valid() && Enabled(g, s, a)
  {
    match a
    case Primary => StepPrimary(g, s)
    case Ap(c) => StepAp(s, c)
  }

  ghost predicate Runs(g: Config, s: State, run: seq<Action>, s': State)
    requires g.Valid()
    decreases run
  {
    if run == [] then s == s' else Enabled(g, s, run[0]) && Runs(g, Step(g, s, run[0]), run[1..], s')
  }

  ghost predicate Reachable(g: Config, s: State)
    requires g.Valid()
  {
    exists run :: Runs(g, Init(g), run, s)
  }

  // ---- counting -----------------------------------------------------------------------------

  /** How many secondaries have reached rank `r`. */
  function Count(aps: seq<Stage>, r: nat): (k: nat)
    ensures k <= |aps|
  {
    if aps == [] then 0 else (if aps[0].Rank() >= r then 1 else 0) + Count(aps[1..], r)
  }

  lemma {:induction false} CountUpdate(aps: seq<Stage>, c: nat, x: Stage, r: nat)
    requires c < |aps|
    ensures Count(aps[c := x], r) + (if aps[c].Rank() >= r then 1 else 0) == Count(aps, r) + (if x.Rank() >= r then 1 else 0)
  {
    if c > 0 {
      assert aps[c := x][1..] == aps[1..][c - 1 := x];
      CountUpdate(aps[1..], c - 1, x, r);
    } else {
      assert aps[c := x][1..] == aps[1..];
    }
  }

  lemma {:induction false} CountNone(aps: seq<Stage>, r: nat)
    requires r > 0 && forall c :: 0 <= c < |aps| ==> aps[c] == Off
    ensures Count(aps, r) == 0
  {
    if aps != [] {
      CountNone(aps[1..], r);
    }
  }

  /** Reaching a later stage implies the earlier one; equal counts leave nobody between. */
  lemma {:induction false} CountBetween(aps: seq<Stage>, lo: nat, hi: nat)
    requires lo <= hi
    ensures Count(aps, hi) <= Count(aps, lo)
    ensures Count(aps, hi) == Count(aps, lo) ==> forall c :: 0 <= c < |aps| && aps[c].Rank() >= lo ==> aps[c].Rank() >= hi
    ensures Count(aps, hi) < Count(aps, lo) ==> exists c :: 0 <= c < |aps| && lo <= aps[c].Rank() < hi
  {
    if aps != [] {
      CountBetween(aps[1..], lo, hi);
      assert aps == [aps[0]] + aps[1..];
      if Count(aps[1..], hi) < Count(aps[1..], lo) {
        var c :| 0 <= c < |aps[1..]| && lo <= aps[1..][c].Rank() < hi;
        assert aps[c + 1] == aps[1..][c];
      }
    }
  }

  /** If all but one could be counted and are, each of them is. */
  lemma {:induction false} CountAllBut(aps: seq<Stage>, p: nat, r: nat)
    requires p < |aps| && aps[p].Rank() < r
    ensures Count(aps, r) <= |aps| - 1
    ensures Count(aps, r) == |aps| - 1 <==> forall c :: 0 <= c < |aps| && c != p ==> aps[c].Rank() >= r
  {
    var rest := aps[1..];
    assert forall c :: 0 <= c < |rest| ==> rest[c] == aps[c + 1];
    if p == 0 {
      CountAll(rest, r);
      if Count(aps, r) == |aps| - 1 {
        forall c | 0 < c < |aps| ensures aps[c].Rank() >= r {
          assert aps[c] == rest[c - 1];
        }
      }
    } else {
      CountAllBut(rest, p - 1, r);
      if Count(aps, r) == |aps| - 1 {
        forall c | 0 <= c < |aps| && c != p ensures aps[c].Rank() >= r {
          if c > 0 {
            assert aps[c] == rest[c - 1];
          }
        }
      }
    }
  }

  lemma {:induction false} CountAll(aps: seq<Stage>, r: nat)
    ensures Count(aps, r) == |aps| <==> forall c :: 0 <= c < |aps| ==> aps[c].Rank() >= r
  {
    if aps != [] {
      var rest := aps[1..];
      CountAll(rest, r);
      assert forall c :: 0 <= c < |rest| ==> rest[c] == aps[c + 1];
      if Count(aps, r) == |aps| {
        forall c | 0 <= c < |aps| ensures aps[c].Rank() >= r {
          if c > 0 {
            assert aps[c] == rest[c - 1];
          }
        }
      }
    }
  }

  // ---- the invariant ------------------------------------------------------------------------

  /** How many present CPUs the primary has gone through. */
  function Cursor(g: Config, s: State): nat {
    match s.phase
    case Starting(i) => i
    case Waiting(i) => i
    case _ => g.n
  }

  predicate Published(s: State) {
    s.phase.Barrier? || s.phase.Passed?
  }

  ghost predicate Counters(g: Config, s: State) {
    && s.secondaries == Count(s.aps, 1) && s.secondaries <= g.cap - 1
    && s.schedReady == 1 + Count(s.aps, 3)
    && s.inited == (if Published(s) then 1 else 0) + Count(s.aps, 6)
  }

  /** What holds of CPU `c`: the primary itself is no secondary; a CPU the primary has passed
      is ready, unless the cap was reached; nobody is active before publication. */
  ghost predicate CpuOk(g: Config, s: State, c: nat)
    requires c < |s.aps|
  {
    && (c == g.p ==> s.aps[c] == Off)
    && (c != g.p && c < Cursor(g, s) ==> s.aps[c].Rank() >= 3 || (s.aps[c] == Off && s.secondaries == g.cap - 1))
    && (c > Cursor(g, s) || (c == Cursor(g, s) && !s.phase.Waiting?) ==> s.aps[c] == Off)
    && (s.aps[c].Rank() >= 4 ==> Published(s))
    && (c in s.queues <==> c == g.p || s.aps[c].Rank() >= 2)
    && (c in s.active <==> s.aps[c].Rank() >= 4)
    && (c in s.served <==> if c == g.p then s.phase.Publishing? || Published(s) else s.aps[c].Rank() >= 5)
  }

  ghost predicate StacksOk(s: State) {
    && (forall c :: c in s.stacks <==> 0 <= c < |s.aps| && s.aps[c] != Off)
    && (forall c :: c in s.stacks ==> s.stacks[c] < s.secondaries)
    && (forall c, d :: c in s.stacks && d in s.stacks && c != d ==> s.stacks[c] != s.stacks[d])
  }

  ghost predicate Ok(g: Config, s: State) {
    && |s.aps| == g.n && Cursor(g, s) <= g.n
    && (s.phase.Waiting? ==> s.phase.i < g.n && s.phase.i != g.p && s.aps[s.phase.i] != Off)
    && (s.phase.Passed? ==> s.inited == g.n)
    && Counters(g, s) && StacksOk(s)
    && forall c :: 0 <= c < g.n ==> CpuOk(g, s, c)
  }

  lemma InitOk(g: Config)
    requires g.Valid()
    ensures Ok(g, Init(g))
  {
    CountNone(Init(g).aps, 1);
    CountNone(Init(g).aps, 3);
    CountNone(Init(g).aps, 6);
  }

  lemma CountsUpdate(aps: seq<Stage>, c: nat, x: Stage)
    requires c < |aps|
    ensures Count(aps[c := x], 1) + (if aps[c].Rank() >= 1 then 1 else 0) == Count(aps, 1) + (if x.Rank() >= 1 then 1 else 0)
    ensures Count(aps[c := x], 3) + (if aps[c].Rank() >= 3 then 1 else 0) == Count(aps, 3) + (if x.Rank() >= 3 then 1 else 0)
    ensures Count(aps[c := x], 6) + (if aps[c].Rank() >= 6 then 1 else 0) == Count(aps, 6) + (if x.Rank() >= 6 then 1 else 0)
  {
    CountUpdate(aps, c, x, 1);
    CountUpdate(aps, c, x, 3);
    CountUpdate(aps, c, x, 6);
  }

  lemma {:induction false} CountSome(aps: seq<Stage>, r: nat)
    requires Count(aps, r) > 0
    ensures exists c :: 0 <= c < |aps| && aps[c].Rank() >= r
  {
    if aps[0].Rank() < r {
      CountSome(aps[1..], r);
      var c :| 0 <= c < |aps[1..]| && aps[1..][c].Rank() >= r;
      assert aps[c + 1] == aps[1..][c];
    }
  }

  /** Only the primary publishes the first completion. */
  lemma InitedMeansPublished(g: Config, s: State)
    requires Ok(g, s) && s.inited > 0
    ensures Published(s)
  {
    if Count(s.aps, 6) > 0 {
      CountSome(s.aps, 6);
      var c :| 0 <= c < |s.aps| && s.aps[c].Rank() >= 6;
      assert CpuOk(g, s, c);
    }
  }

  lemma ApCounters(g: Config, s: State, c: nat)
    requires g.Valid() && Ok(g, s) && Enabled(g, s, Ap(c))
    ensures Counters(g, StepAp(s, c))
  {
    CountsUpdate(s.aps, c, StepAp(s, c).aps[c]);
  }

  lemma ApStacks(s: State, c: nat)
    requires StacksOk(s) && c < |s.aps| && s.aps[c] != Off
    ensures StacksOk(StepAp(s, c))
  {
  }

  lemma ApCpu(g: Config, s: State, c: nat, d: nat)
    requires g.Valid() && Enabled(g, s, Ap(c)) && d < g.n && CpuOk(g, s, d) && (s.inited > 0 ==> Published(s))
    ensures CpuOk(g, StepAp(s, c), d)
  {
  }

  lemma ApOk(g: Config, s: State, c: nat)
    requires g.Valid() && Ok(g, s) && Enabled(g, s, Ap(c))
    ensures Ok(g, StepAp(s, c))
  {
    var s' := StepAp(s, c);
    ApCounters(g, s, c);
    ApStacks(s, c);
    if s.phase.Passed? {
      assert CpuOk(g, s, c);
      PassedMeansDone(g, s);
    }
    if s.inited > 0 {
      InitedMeansPublished(g, s);
    }
    forall d | 0 <= d < g.n ensures CpuOk(g, s', d) {
      assert CpuOk(g, s, d);
      ApCpu(g, s, c, d);
    }
  }

  /** With every CPU counted, every secondary is done. */
  lemma PassedMeansDone(g: Config, s: State)
    requires g.Valid() && Ok(g, s) && Published(s) && s.inited == g.n
    ensures forall c :: 0 <= c < g.n && c != g.p ==> s.aps[c] == Done
  {
    assert CpuOk(g, s, g.p);
    CountAllBut(s.aps, g.p, 6);
  }

  lemma BootCpu(g: Config, s: State, d: nat)
    requires g.Valid() && |s.aps| == g.n && d < g.n && s.phase.Starting? && s.phase.i < g.n && CpuOk(g, s, d)
    requires s.phase.i != g.p && s.secondaries < g.cap - 1 && CpuOk(g, s, s.phase.i)
    ensures |StepPrimary(g, s).aps| == g.n && (d != s.phase.i ==> CpuOk(g, StepPrimary(g, s), d))
    ensures CpuOk(g, StepPrimary(g, s), s.phase.i)
  {
  }

  lemma BootOk(g: Config, s: State)
    requires g.Valid() && Ok(g, s) && s.phase.Starting? && s.phase.i < g.n
    requires s.phase.i != g.p && s.secondaries < g.cap - 1
    ensures Ok(g, StepPrimary(g, s))
  {
    var s' := StepPrimary(g, s);
    var i := s.phase.i;
    assert CpuOk(g, s, i);
    CountsUpdate(s.aps, i, Booting);
    forall d | 0 <= d < g.n ensures CpuOk(g, s', d) {
      assert CpuOk(g, s, d);
      BootCpu(g, s, d);
    }
  }

  lemma PrimaryOk(g: Config, s: State)
    requires g.Valid() && Ok(g, s)
    ensures Ok(g, StepPrimary(g, s))
  {
    var s' := StepPrimary(g, s);
    if s.phase.Starting? && s.phase.i < g.n && s.phase.i != g.p && s.secondaries < g.cap - 1 {
      BootOk(g, s);
    } else {
      CountBetween(s.aps, 1, 3);
      forall d | 0 <= d < g.n ensures CpuOk(g, s', d) {
        assert CpuOk(g, s, d);
        PrimaryCpu(g, s, d);
      }
    }
  }

  /** A step of the primary that starts nobody. */
  lemma PrimaryCpu(g: Config, s: State, d: nat)
    requires g.Valid() && |s.aps| == g.n && d < g.n && Cursor(g, s) <= g.n && CpuOk(g, s, d)
    requires s.secondaries <= g.cap - 1
    requires s.phase.Starting? && s.phase.i < g.n ==> s.phase.i == g.p || s.secondaries >= g.cap - 1
    requires s.phase.Waiting? && s.schedReady > s.secondaries ==> s.phase.i < g.n && s.aps[s.phase.i].Rank() >= 3
    ensures |StepPrimary(g, s).aps| == g.n && CpuOk(g, StepPrimary(g, s), d)
  {
  }

  lemma StepOk(g: Config, s: State, a: Action)
    requires g.Valid() && Ok(g, s) && Enabled(g, s, a)
    ensures Ok(g, Step(g, s, a))
  {
    match a
    case Primary => PrimaryOk(g, s);
    case Ap(c) => ApOk(g, s, c);
  }

  lemma {:induction false} RunOk(g: Config, s: State, run: seq<Action>, s': State)
    requires g.Valid() && Ok(g, s) && Runs(g, s, run, s')
    ensures Ok(g, s')
    decreases run
  {
    if run != [] {
      StepOk(g, s, run[0]);
      RunOk(g, Step(g, s, run[0]), run[1..], s');
    }
  }

  lemma ReachableOk(g: Config, s: State)
    requires g.Valid() && Reachable(g, s)
    ensures Ok(g, s)
  {
    InitOk(g);
    var run :| Runs(g, Init(g), run, s);
    RunOk(g, Init(g), run, s);
  }

  // ---- what bring-up promises ---------------------------------------------------------------

  /** Once `start_secondary_cpus` has returned, every CPU has a run queue. */
  lemma SecondariesRegistered(g: Config, s: State, c: nat)
    requires g.Valid() && Reachable(g, s)
    requires s.phase.Services? || s.phase.Publishing? || Published(s)
    requires c < g.n
    ensures |s.aps| == g.n && c in s.queues && (c != g.p ==> s.aps[c] != Off)
  {
    ReachableOk(g, s);
    assert CpuOk(g, s, c) && CpuOk(g, s, g.p);
    if s.aps[c] == Off {
      CountAllBut(s.aps, g.p, 1);
    }
  }

  /** No secondary activates its interrupts before the primary's services are prepared and
      every CPU has a run queue. */
  lemma NoEarlyInterrupts(g: Config, s: State, c: nat)
    requires g.Valid() && Reachable(g, s) && c < g.n && c in s.active
    ensures c != g.p && g.p in s.served && forall d :: 0 <= d < g.n ==> d in s.queues
  {
    ReachableOk(g, s);
    assert CpuOk(g, s, c) && CpuOk(g, s, g.p);
    forall d | 0 <= d < g.n ensures d in s.queues {
      SecondariesRegistered(g, s, d);
    }
  }

  /** Late initialisation passes the barrier only when all `n` CPUs finished their services. */
  lemma BarrierMeansAll(g: Config, s: State)
    requires g.Valid() && Reachable(g, s) && s.phase.Passed?
    ensures forall c :: 0 <= c < g.n ==> c in s.queues && c in s.served && (c != g.p ==> c in s.active)
  {
    ReachableOk(g, s);
    PassedMeansDone(g, s);
    forall c | 0 <= c < g.n ensures c in s.queues && c in s.served && (c != g.p ==> c in s.active) {
      assert CpuOk(g, s, c);
    }
  }

  /** Secondaries boot on stacks of their own, inside the pool of `cap - 1`. */
  lemma StacksDistinct(g: Config, s: State, c: nat, d: nat)
    requires g.Valid() && Reachable(g, s) && c < g.n && d < g.n && c != d && |s.aps| == g.n
    requires s.aps[c] != Off && s.aps[d] != Off
    ensures c in s.stacks && d in s.stacks && s.stacks[c] != s.stacks[d] && s.stacks[c] < g.cap - 1
  {
    ReachableOk(g, s);
  }

  // ---- progress -----------------------------------------------------------------------------

  function Sum(aps: seq<Stage>): nat {
    if aps == [] then 0 else aps[0].Rank() + Sum(aps[1..])
  }

  lemma {:induction false} SumUpdate(aps: seq<Stage>, c: nat, x: Stage)
    requires c < |aps|
    ensures Sum(aps[c := x]) + aps[c].Rank() == Sum(aps) + x.Rank()
  {
    if c > 0 {
      assert aps[c := x][1..] == aps[1..][c - 1 := x];
      SumUpdate(aps[1..], c - 1, x);
    } else {
      assert aps[c := x][1..] == aps[1..];
    }
  }

  lemma {:induction false} SumBound(aps: seq<Stage>)
    ensures Sum(aps) <= 6 * |aps|
  {
    if aps != [] {
      SumBound(aps[1..]);
    }
  }

  /** How far the whole bring-up has come. */
  function Progress(g: Config, s: State): nat {
    Sum(s.aps) + match s.phase
                 case Starting(i) => 2 * i
                 case Waiting(i) => 2 * i + 1
                 case Services => 2 * g.n + 1
                 case Publishing => 2 * g.n + 2
                 case Barrier => 2 * g.n + 3
                 case Passed => 2 * g.n + 4
  }

  lemma ApProgress(g: Config, s: State, c: nat)
    requires g.Valid() && Enabled(g, s, Ap(c))
    ensures StepAp(s, c) != s ==> Progress(g, StepAp(s, c)) > Progress(g, s)
  {
    SumUpdate(s.aps, c, StepAp(s, c).aps[c]);
  }

  lemma PrimaryProgress(g: Config, s: State)
    requires g.Valid() && Ok(g, s)
    ensures StepPrimary(g, s) != s ==> Progress(g, StepPrimary(g, s)) > Progress(g, s)
  {
    if s.phase.Starting? && s.phase.i < g.n {
      assert CpuOk(g, s, s.phase.i);
      SumUpdate(s.aps, s.phase.i, Booting);
    }
  }

  /** Every step that does anything is progress, and progress is bounded. */
  lemma StepsProgress(g: Config, s: State, a: Action)
    requires g.Valid() && Reachable(g, s) && Enabled(g, s, a)
    ensures Progress(g, s) <= 8 * g.n + 4
    ensures Step(g, s, a) != s ==> Progress(g, Step(g, s, a)) > Progress(g, s)
  {
    ReachableOk(g, s);
    SumBound(s.aps);
    match a
    case Primary => PrimaryProgress(g, s);
    case Ap(c) => ApProgress(g, s, c);
  }

  /** Until late initialisation passes the barrier, some CPU can take a step that counts. */
  lemma SomeoneCanStep(g: Config, s: State) returns (a: Action)
    requires g.Valid() && Reachable(g, s) && !s.phase.Passed?
    ensures Enabled(g, s, a) && Step(g, s, a) != s
  {
    ReachableOk(g, s);
    a := Primary;
    if s.phase.Waiting? && s.schedReady <= s.secondaries {
      CountBetween(s.aps, 1, 3);
      var c :| 0 <= c < |s.aps| && 1 <= s.aps[c].Rank() < 3;
      a := Ap(c);
    } else if s.phase.Barrier? && s.inited != g.n {
      a := BarrierStep(g, s);
    }
  }

  lemma BarrierStep(g: Config, s: State) returns (a: Action)
    requires g.Valid() && Reachable(g, s) && s.phase.Barrier? && s.inited != g.n
    ensures Enabled(g, s, a) && Step(g, s, a) != s
  {
    ReachableOk(g, s);
    assert CpuOk(g, s, g.p);
    CountAllBut(s.aps, g.p, 6);
    var c :| 0 <= c < |s.aps| && c != g.p && s.aps[c].Rank() < 6;
    SecondariesRegistered(g, s, c);
    a := Ap(c);
  }

  lemma {:induction false} RunsAppend(g: Config, s: State, run: seq<Action>, s': State, a: Action)
    requires g.Valid() && Runs(g, s, run, s') && Enabled(g, s', a)
    ensures Runs(g, s, run + [a], Step(g, s', a))
    decreases run
  {
    if run == [] {
      assert (run + [a])[1..] == [];
      assert Runs(g, Step(g, s, a), [], Step(g, s', a));
    } else {
      RunsAppend(g, Step(g, s, run[0]), run[1..], s', a);
      assert (run + [a])[1..] == run[1..] + [a];
    }
  }

  lemma StepReachable(g: Config, s: State, a: Action)
    requires g.Valid() && Reachable(g, s) && Enabled(g, s, a)
    ensures Reachable(g, Step(g, s, a))
  {
    var run :| Runs(g, Init(g), run, s);
    RunsAppend(g, Init(g), run, s, a);
  }

  /** Bring-up never deadlocks: from every reachable state the barrier can still be passed. */
  lemma BarrierCanPass(g: Config, s: State) returns (run: seq<Action>, s': State)
    requires g.Valid() && Reachable(g, s)
    ensures Runs(g, s, run, s') && s'.phase.Passed?
    decreases 8 * g.n + 4 - Progress(g, s)
  {
    if s.phase.Passed? {
      run, s' := [], s;
    } else {
      var a := SomeoneCanStep(g, s);
      StepsProgress(g, s, a);
      StepReachable(g, s, a);
      ReachableOk(g, Step(g, s, a));
      StepsProgress(g, Step(g, s, a), Primary);
      var rest;
      rest, s' := BarrierCanPass(g, Step(g, s, a));
      run := [a] + rest;
      assert run[1..] == rest;
    }
  }

  // ---- fair schedules -------------------------------------------------------------------------

  /** Progress is never lost, and a passed barrier stays passed. */
  lemma {:induction false} RunsProgress(g: Config, s: State, run: seq<Action>, s': State)
    requires g.Valid() && Reachable(g, s) && Runs(g, s, run, s')
    ensures Reachable(g, s') && Progress(g, s') >= Progress(g, s)
    ensures s.phase.Passed? ==> s'.phase.Passed?
    decreases run
  {
    if run != [] {
      StepsProgress(g, s, run[0]);
      StepReachable(g, s, run[0]);
      RunsProgress(g, Step(g, s, run[0]), run[1..], s');
    }
  }

  /** A step that counts now has been taken, or overtaken, once its turn has come. */
  lemma {:induction false} TurnCounts(g: Config, s: State, run: seq<Action>, s': State, a: Action)
    requires g.Valid() && Reachable(g, s) && Runs(g, s, run, s')
    requires a in run && Enabled(g, s, a) && Step(g, s, a) != s
    ensures Progress(g, s') > Progress(g, s)
    decreases run
  {
    StepsProgress(g, s, run[0]);
    StepReachable(g, s, run[0]);
    if Step(g, s, run[0]) == s {
      TurnCounts(g, s, run[1..], s', a);
    } else {
      RunsProgress(g, Step(g, s, run[0]), run[1..], s');
    }
  }

  /** Every CPU that is running gets a turn. */
  ghost predicate Round(s: State, run: seq<Action>) {
    Primary in run && forall c :: 0 <= c < |s.aps| && s.aps[c] != Off ==> Ap(c) in run
  }

  ghost predicate Rounds(g: Config, s: State, rounds: seq<seq<Action>>, s': State)
    requires g.Valid()
    decreases |rounds|
  {
    if rounds == [] then s' == s
    else exists m :: Runs(g, s, rounds[0], m) && Round(s, rounds[0]) && Rounds(g, m, rounds[1..], s')
  }

  lemma RoundCounts(g: Config, s: State, run: seq<Action>, s': State)
    requires g.Valid() && Reachable(g, s) && Runs(g, s, run, s') && Round(s, run) && !s.phase.Passed?
    ensures Progress(g, s') > Progress(g, s)
  {
    var a := SomeoneCanStep(g, s);
    TurnCounts(g, s, run, s', a);
  }

  /** However the CPUs are scheduled, the barrier is passed once each of them has had
      its turn often enough. */
  lemma {:induction false} FairBringupCompletes(g: Config, s: State, rounds: seq<seq<Action>>, s': State)
    requires g.Valid() && Reachable(g, s) && Rounds(g, s, rounds, s')
    requires s.phase.Passed? || |rounds| > 8 * g.n + 4 - Progress(g, s)
    ensures s'.phase.Passed?
    decreases |rounds|
  {
    ReachableOk(g, s);
    StepsProgress(g, s, Primary);
    if rounds != [] {
      var m :| Runs(g, s, rounds[0], m) && Round(s, rounds[0]) && Rounds(g, m, rounds[1..], s');
      RunsProgress(g, s, rounds[0], m);
      if !s.phase.Passed? {
        RoundCounts(g, s, rounds[0], m);
      }
      FairBringupCompletes(g, m, rounds[1..], s');
    }
  }
}
