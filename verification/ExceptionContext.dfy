/**
The per-CPU active-exception-context pointer (arch/kcpu/src/active_exception_context.rs)
under nested traps, suspension, task switches and migration.

A task's kernel stack holds guards, suspension tokens and half-finished drops.
The interrupt tail (arch/khal/src/irq/manager.rs:38-41) and the scheduler
(task/ktask/src/run_queue/rq.rs:985-1005) both suspend the marker, so tokens nest.

A drop looks up the current CPU's slot and then compare-exchanges it. Trap handlers make
their guard on entry, with interrupts masked (arch/kcpu/src/x86_64/excp.rs:54-55); nothing
in the guard itself masks them. Each drop therefore carries the mask it runs under.
*/
module ExceptionContext {
  import opened Prelude

  /** The slot operation of every guard drop. */
  function Cas(value: nat, expected: nat, replacement: nat): nat {
    if value == expected then replacement else value
  }

  datatype Entry =
    | Guard(cpu: nat, ptr: nat, prev: nat)
    | Leaving(cpu: nat, ptr: nat, prev: nat, at: nat, masked: bool)  // drop has looked up the current slot `at`
    | Unwinding(cpu: nat, ptr: nat, prev: nat, masked: bool)         // only the CAS on the original slot is left
    | Token(saved: nat)

  type Stack = seq<Entry>

  function Top(st: Stack): Entry
    requires st != []
  {
    st[|st| - 1]
  }

  function Below(st: Stack): Stack
    requires st != []
  {
    st[..|st| - 1]
  }

  /** Trapframe of the innermost live guard; 0 if there is none or it is suspended. */
  function Visible(st: Stack): nat {
    if st == [] then 0 else
      match Top(st)
      case Guard(_, ptr, _) => ptr
      case Leaving(_, ptr, _, _, _) => ptr
      case Unwinding(_, _, _, _) => Visible(Below(st))
      case Token(_) => 0
  }

  datatype State = State(
    slots: seq<nat>,             // ACTIVE_EXCEPTION_CONTEXT_PTR of each CPU
    current: seq<Option<nat>>,   // task running on each CPU
    stacks: map<nat, Stack>,     // kernel stack of each task
    live: map<nat, (nat, nat)>)  // history: where each live trapframe's guard is

  datatype Action =
    | Spawn(task: nat)
    | Install(c: nat, ptr: nat)  // ExceptionContextGuard::new
    | Suspend(c: nat)            // suspend_active_exception_context
    | Resume(c: nat)             // resume_active_exception_context
    | Switch(c: nat, next: Option<nat>)
    | Lookup(c: nat, masked: bool)  // restore_slot: find the current CPU's slot
    | Restore(c: nat)            // restore_slot: CAS on the slot looked up
    | Unwind(c: nat)             // restore_slot: CAS on the guard's original slot

  predicate HasPtr(e: Entry) {
    !e.Token?
  }

  /** A drop under way. */
  predicate Dropping(e: Entry) {
    e.Leaving? || e.Unwinding?
  }

  predicate Idle(s: State, t: nat) {
    forall c :: 0 <= c < |s.current| ==> s.current[c] != Some(t)
  }

  predicate On(s: State, n: nat, c: nat) {
    c < n && c < |s.current| && c < |s.slots| && s.current[c].Some? && s.current[c].value in s.stacks
  }

  function StackOn(s: State, n: nat, c: nat): Stack
    requires On(s, n, c)
  {
    s.stacks[s.current[c].value]
  }

  /** The innermost entry of the running task of CPU `c`. */
  predicate Busy(s: State, n: nat, c: nat) {
    On(s, n, c) && StackOn(s, n, c) != []
  }

  /** A drop is under way on CPU `c`. */
  predicate DropOpen(s: State, n: nat, c: nat) {
    Busy(s, n, c) && Dropping(Top(StackOn(s, n, c)))
  }

  /** Trapframe addresses are non-null and distinct while live; the scheduler
      switches only away from a suspended task, to one that runs nowhere. A drop does
      nothing but its own steps; an interrupt can come between them unless it is masked. */
  predicate Enabled(s: State, n: nat, a: Action) {
    |s.slots| == |s.current| == n &&
    match a
    case Spawn(t) => t !in s.stacks
    case Install(c, ptr) =>
      && On(s, n, c) && ptr != 0 && ptr !in s.live
      && (DropOpen(s, n, c) ==> !Top(StackOn(s, n, c)).masked)
    case Suspend(c) => On(s, n, c) && !DropOpen(s, n, c)
    case Resume(c) => Busy(s, n, c) && Top(StackOn(s, n, c)).Token?
    case Switch(c, next) =>
      && c < n && (s.current[c].Some? ==> On(s, n, c) && (StackOn(s, n, c) == [] || Top(StackOn(s, n, c)).Token?))
      && (next.Some? ==> next.value in s.stacks && Idle(s, next.value))
    case Lookup(c, _) => Busy(s, n, c) && Top(StackOn(s, n, c)).Guard?
    case Restore(c) => Busy(s, n, c) && Top(StackOn(s, n, c)).Leaving? && Top(StackOn(s, n, c)).at < n
    case Unwind(c) => Busy(s, n, c) && Top(StackOn(s, n, c)).Unwinding? && Top(StackOn(s, n, c)).cpu < n
  }

  function SetStack(s: State, n: nat, c: nat, st: Stack): State
    requires On(s, n, c)
  {
    s.(stacks := s.stacks[s.current[c].value := st])
  }

  function Step(s: State, n: nat, a: Action): State
    requires Enabled(s, n, a)
  {
    match a
    case Spawn(t) => s.(stacks := s.stacks[t := []])
    case Install(c, ptr) =>
      var st := StackOn(s, n, c);
      SetStack(s, n, c, st + [Guard(c, ptr, s.slots[c])]).(
        slots := s.slots[c := ptr], live := s.live[ptr := (s.current[c].value, |st|)])
    case Suspend(c) => SetStack(s, n, c, StackOn(s, n, c) + [Token(s.slots[c])]).(slots := s.slots[c := 0])
    case Resume(c) =>
      var saved := Top(StackOn(s, n, c)).saved;
      SetStack(s, n, c, Below(StackOn(s, n, c))).(slots := if saved == 0 then s.slots else s.slots[c := saved])
    case Switch(c, next) => s.(current := s.current[c := next])
    case Lookup(c, masked) =>
      var g := Top(StackOn(s, n, c));
      SetStack(s, n, c, Below(StackOn(s, n, c)) + [Leaving(g.cpu, g.ptr, g.prev, c, masked)])
    case Restore(c) =>
      var l := Top(StackOn(s, n, c));
      var rest := Below(StackOn(s, n, c));
      var s' := s.(slots := s.slots[l.at := Cas(s.slots[l.at], l.ptr, l.prev)]);
      if l.at == l.cpu then SetStack(s', n, c, rest).(live := s.live - {l.ptr})
      else SetStack(s', n, c, rest + [Unwinding(l.cpu, l.ptr, l.prev, l.masked)])
    case Unwind(c) =>
      var u := Top(StackOn(s, n, c));
      SetStack(s, n, c, Below(StackOn(s, n, c))).(
        slots := s.slots[u.cpu := Cas(s.slots[u.cpu], u.ptr, u.prev)], live := s.live - {u.ptr})
  }

  ghost predicate Runs(s: State, n: nat, run: seq<Action>, s': State)
    decreases |run|
  {
    if run == [] then s' == s
    else Enabled(s, n, run[0]) && Runs(Step(s, n, run[0]), n, run[1..], s')
  }

  function Init(n: nat): State {
    State(seq(n, _ => 0), seq(n, _ => None), map[], map[])
  }

  /** Every drop of the run is made with interrupts masked, as in a trap handler. */
  predicate Masked(run: seq<Action>) {
    forall i :: 0 <= i < |run| && run[i].Lookup? ==> run[i].masked
  }

  ghost predicate Leads(s: State, n: nat, s': State) {
    exists run :: Runs(s, n, run, s') && Masked(run)
  }

  ghost predicate Reachable(s: State, n: nat) {
    Leads(Init(n), n, s)
  }

  /** A drop that was not moved to another CPU between looking up the current slot
      and its compare-exchange. */
  predicate Prompt(s: State, n: nat, a: Action)
    requires Enabled(s, n, a)
  {
    a.Restore? ==> Top(StackOn(s, n, a.c)).at == a.c
  }

  // ---- the invariant ------------------------------------------------------------------

  /** Each entry remembers what was visible below it. */
  predicate Chained(st: Stack) {
    forall i :: 0 <= i < |st| ==>
      && (st[i].Token? ==> st[i].saved == Visible(st[..i]))
      && (HasPtr(st[i]) ==> st[i].prev == Visible(st[..i]) && st[i].ptr != 0)
  }

  /** Trapframe addresses of live guards are pairwise distinct: each one has a place. */
  predicate PlaceOk(s: State, n: nat, t: nat, i: nat)
    requires t in s.stacks && i < |s.stacks[t]|
  {
    var e := s.stacks[t][i];
    && (HasPtr(e) ==> e.ptr in s.live && s.live[e.ptr] == (t, i) && e.cpu < n)
    && (e.Leaving? ==> e.at < n)
  }

  /** What CPU `c` should expose. */
  function Exposed(s: State, n: nat, c: nat): nat
    requires |s.slots| == |s.current| == n && c < n
  {
    if On(s, n, c) then Visible(StackOn(s, n, c)) else 0
  }

  ghost predicate Ok(s: State, n: nat) {
    && |s.slots| == |s.current| == n
    && (forall c :: 0 <= c < n && s.current[c].Some? ==> s.current[c].value in s.stacks)
    && (forall c, d :: 0 <= c < n && 0 <= d < n && s.current[c].Some? && s.current[c] == s.current[d] ==> c == d)
    && (forall c :: 0 <= c < n ==> s.slots[c] == Exposed(s, n, c))
    && (forall t :: t in s.stacks ==> Chained(s.stacks[t]))
    && (forall t :: t in s.stacks && Idle(s, t) ==> Visible(s.stacks[t]) == 0)
    && (forall t, i :: t in s.stacks && 0 <= i < |s.stacks[t]| ==> PlaceOk(s, n, t, i))
  }

  // ---- stacks --------------------------------------------------------------------------

  /** What a stack exposes is the trapframe of one of its guards, or nothing. */
  lemma {:induction false} VisibleIsHeld(st: Stack)
    ensures Visible(st) == 0 || exists i :: 0 <= i < |st| && HasPtr(st[i]) && !st[i].Unwinding? && st[i].ptr == Visible(st)
  {
    if st != [] && Top(st).Unwinding? {
      VisibleIsHeld(Below(st));
    }
  }

  lemma PushChained(st: Stack, e: Entry)
    requires Chained(st)
    requires e.Token? ==> e.saved == Visible(st)
    requires HasPtr(e) ==> e.prev == Visible(st) && e.ptr != 0
    ensures Chained(st + [e])
  {
    var st' := st + [e];
    forall i | 0 <= i < |st'| ensures st'[..i] == if i < |st| then st[..i] else st {
    }
  }

  lemma PopChained(st: Stack)
    requires Chained(st) && st != []
    ensures Chained(Below(st))
  {
    var st' := Below(st);
    forall i | 0 <= i < |st'| ensures st'[i] == st[i] && st'[..i] == st[..i] {
    }
  }

  /** Another CPU's slot never holds a pointer of a guard that belongs to this one. */
  lemma ForeignSlot(s: State, n: nat, c: nat, d: nat, i: nat)
    requires Ok(s, n) && c < n && d < n && c != d && On(s, n, c)
    requires i < |StackOn(s, n, c)| && HasPtr(StackOn(s, n, c)[i])
    ensures s.slots[d] != StackOn(s, n, c)[i].ptr
  {
    var t := s.current[c].value;
    assert PlaceOk(s, n, t, i) && Chained(s.stacks[t]);
    if On(s, n, d) {
      var u := s.current[d].value;
      VisibleIsHeld(s.stacks[u]);
      if Visible(s.stacks[u]) != 0 {
        var j :| 0 <= j < |s.stacks[u]| && HasPtr(s.stacks[u][j]) && s.stacks[u][j].ptr == Visible(s.stacks[u]);
        assert PlaceOk(s, n, u, j);
      }
    }
  }

  // ---- steps ---------------------------------------------------------------------------

  /** CPU `c`'s task gets stack `st`, and only CPU `c`'s slot changes. */
  lemma StackStep(s: State, s': State, n: nat, c: nat, st: Stack)
    requires Ok(s, n) && On(s, n, c)
    requires s' == SetStack(s, n, c, st).(slots := s'.slots, live := s'.live)
    requires |s'.slots| == n && s'.slots[c] == Visible(st)
    requires forall d :: 0 <= d < n && d != c ==> s'.slots[d] == s.slots[d]
    requires Chained(st)
    requires forall t, i :: t in s'.stacks && 0 <= i < |s'.stacks[t]| ==> PlaceOk(s', n, t, i)
    ensures Ok(s', n)
  {
    forall d | 0 <= d < n ensures s'.slots[d] == Exposed(s', n, d) {
      assert s.slots[d] == Exposed(s, n, d);
    }
    forall t | t in s'.stacks && Idle(s', t) ensures Visible(s'.stacks[t]) == 0 {
      assert Idle(s, t);
    }
  }

  lemma InstallOk(s: State, n: nat, c: nat, ptr: nat)
    requires Ok(s, n) && Enabled(s, n, Install(c, ptr))
    ensures Ok(Step(s, n, Install(c, ptr)), n)
  {
    var s' := Step(s, n, Install(c, ptr));
    var st := StackOn(s, n, c);
    PushChained(st, Guard(c, ptr, s.slots[c]));
    forall t, i | t in s'.stacks && 0 <= i < |s'.stacks[t]| ensures PlaceOk(s', n, t, i) {
      if t != s.current[c].value || i < |st| {
        assert s'.stacks[t][i] == s.stacks[t][i];
        assert PlaceOk(s, n, t, i);
      }
    }
    StackStep(s, s', n, c, st + [Guard(c, ptr, s.slots[c])]);
  }

  /** Entries already on a stack keep their places. */
  lemma KeptPlaces(s: State, s': State, n: nat, c: nat)
    requires Ok(s, n) && On(s, n, c)
    requires s'.stacks.Keys == s.stacks.Keys && s'.live == s.live
    requires forall t :: t in s.stacks && t != s.current[c].value ==> s'.stacks[t] == s.stacks[t]
    requires var t := s.current[c].value;
             forall i :: 0 <= i < |s'.stacks[t]| ==> (i < |s.stacks[t]| && s'.stacks[t][i] == s.stacks[t][i]) || PlaceOk(s', n, t, i)
    ensures forall t, i :: t in s'.stacks && 0 <= i < |s'.stacks[t]| ==> PlaceOk(s', n, t, i)
  {
    forall t, i | t in s'.stacks && 0 <= i < |s'.stacks[t]| ensures PlaceOk(s', n, t, i) {
      if i < |s.stacks[t]| && s'.stacks[t][i] == s.stacks[t][i] {
        assert PlaceOk(s, n, t, i);
      }
    }
  }

  lemma SuspendOk(s: State, n: nat, c: nat)
    requires Ok(s, n) && Enabled(s, n, Suspend(c))
    ensures Ok(Step(s, n, Suspend(c)), n)
  {
    var s' := Step(s, n, Suspend(c));
    var st := StackOn(s, n, c);
    PushChained(st, Token(s.slots[c]));
    KeptPlaces(s, s', n, c);
    StackStep(s, s', n, c, st + [Token(s.slots[c])]);
  }

  lemma ResumeOk(s: State, n: nat, c: nat)
    requires Ok(s, n) && Enabled(s, n, Resume(c))
    ensures Ok(Step(s, n, Resume(c)), n)
  {
    var s' := Step(s, n, Resume(c));
    var st := StackOn(s, n, c);
    assert Chained(st) && st[..|st| - 1] == Below(st);
    PopChained(st);
    KeptPlaces(s, s', n, c);
    StackStep(s, s', n, c, Below(st));
  }

  lemma LookupOk(s: State, n: nat, c: nat, masked: bool)
    requires Ok(s, n) && Enabled(s, n, Lookup(c, masked))
    ensures Ok(Step(s, n, Lookup(c, masked)), n)
  {
    var s' := Step(s, n, Lookup(c, masked));
    var st := StackOn(s, n, c);
    var g := Top(st);
    var l := Leaving(g.cpu, g.ptr, g.prev, c, masked);
    assert PlaceOk(s, n, s.current[c].value, |st| - 1);
    PopChained(st);
    PushChained(Below(st), l);
    KeptPlaces(s, s', n, c);
    StackStep(s, s', n, c, Below(st) + [l]);
  }

  /** Forgetting the innermost guard of CPU `c`'s task frees only its own trapframe. */
  lemma DropPlaces(s: State, s': State, n: nat, c: nat)
    requires Ok(s, n) && Busy(s, n, c) && HasPtr(Top(StackOn(s, n, c)))
    requires s'.stacks == s.stacks[s.current[c].value := Below(StackOn(s, n, c))]
    requires s'.live == s.live - {Top(StackOn(s, n, c)).ptr}
    ensures forall t, i :: t in s'.stacks && 0 <= i < |s'.stacks[t]| ==> PlaceOk(s', n, t, i)
  {
    var st := StackOn(s, n, c);
    assert PlaceOk(s, n, s.current[c].value, |st| - 1);
    forall t, i | t in s'.stacks && 0 <= i < |s'.stacks[t]| ensures PlaceOk(s', n, t, i) {
      assert s'.stacks[t][i] == s.stacks[t][i];
      assert PlaceOk(s, n, t, i);
    }
  }

  /** A prompt drop uncovers the next-outer guard on the CPU it runs on. */
  lemma RestoreOk(s: State, n: nat, c: nat)
    requires Ok(s, n) && Enabled(s, n, Restore(c)) && Prompt(s, n, Restore(c))
    ensures Ok(Step(s, n, Restore(c)), n)
    ensures Step(s, n, Restore(c)).slots == s.slots[c := Visible(Below(StackOn(s, n, c)))]
  {
    var s' := Step(s, n, Restore(c));
    var st := StackOn(s, n, c);
    var l := Top(st);
    assert PlaceOk(s, n, s.current[c].value, |st| - 1);
    assert Chained(st) && l.prev == Visible(Below(st));
    PopChained(st);
    if l.at == l.cpu {
      DropPlaces(s, s', n, c);
      StackStep(s, s', n, c, Below(st));
    } else {
      var u := Unwinding(l.cpu, l.ptr, l.prev, l.masked);
      PushChained(Below(st), u);
      assert Below(Below(st) + [u]) == Below(st);
      KeptPlaces(s, s', n, c);
      StackStep(s, s', n, c, Below(st) + [u]);
    }
  }

  /** The second compare-exchange of a migrated drop never finds its pointer. */
  lemma UnwindOk(s: State, n: nat, c: nat)
    requires Ok(s, n) && Enabled(s, n, Unwind(c))
    ensures Ok(Step(s, n, Unwind(c)), n)
    ensures Step(s, n, Unwind(c)).slots == s.slots
  {
    var s' := Step(s, n, Unwind(c));
    var st := StackOn(s, n, c);
    var u := Top(st);
    var t := s.current[c].value;
    assert PlaceOk(s, n, t, |st| - 1) && Chained(st);
    if u.cpu == c {
      VisibleIsHeld(Below(st));
      if Visible(Below(st)) != 0 {
        var j :| 0 <= j < |Below(st)| && HasPtr(Below(st)[j]) && Below(st)[j].ptr == Visible(Below(st));
        assert PlaceOk(s, n, t, j);
      }
    } else {
      ForeignSlot(s, n, c, u.cpu, |st| - 1);
    }
    PopChained(st);
    DropPlaces(s, s', n, c);
    StackStep(s, s', n, c, Below(st));
  }

  lemma SwitchOk(s: State, n: nat, c: nat, next: Option<nat>)
    requires Ok(s, n) && Enabled(s, n, Switch(c, next))
    ensures Ok(Step(s, n, Switch(c, next)), n)
  {
    var s' := Step(s, n, Switch(c, next));
    forall d | 0 <= d < n ensures s'.slots[d] == Exposed(s', n, d) {
      assert s.slots[d] == Exposed(s, n, d);
    }
    forall t | t in s'.stacks && Idle(s', t) ensures Visible(s'.stacks[t]) == 0 {
      if !Idle(s, t) {
        var d :| 0 <= d < n && s.current[d] == Some(t);
        assert s'.current[d] != Some(t);
      }
    }
    forall t, i | t in s'.stacks && 0 <= i < |s'.stacks[t]| ensures PlaceOk(s', n, t, i) {
      assert PlaceOk(s, n, t, i);
    }
  }

  lemma SpawnOk(s: State, n: nat, t: nat)
    requires Ok(s, n) && Enabled(s, n, Spawn(t))
    ensures Ok(Step(s, n, Spawn(t)), n)
  {
    var s' := Step(s, n, Spawn(t));
    forall d | 0 <= d < n ensures s'.slots[d] == Exposed(s', n, d) {
      assert s.slots[d] == Exposed(s, n, d);
    }
    forall u, i | u in s'.stacks && 0 <= i < |s'.stacks[u]| ensures PlaceOk(s', n, u, i) {
      assert PlaceOk(s, n, u, i);
    }
  }

  /** Every step keeps the slots right, save a drop that another CPU completes. */
  lemma PromptStep(s: State, n: nat, a: Action)
    requires Ok(s, n) && Enabled(s, n, a) && Prompt(s, n, a)
    ensures Ok(Step(s, n, a), n)
  {
    match a
    case Spawn(t) => SpawnOk(s, n, t);
    case Install(c, ptr) => InstallOk(s, n, c, ptr);
    case Suspend(c) => SuspendOk(s, n, c);
    case Resume(c) => ResumeOk(s, n, c);
    case Switch(c, next) => SwitchOk(s, n, c, next);
    case Lookup(c, masked) => LookupOk(s, n, c, masked);
    case Restore(c) => RestoreOk(s, n, c);
    case Unwind(c) => UnwindOk(s, n, c);
  }

  // ---- masked drops ----------------------------------------------------------------------

  /** An open drop is masked, innermost, and its task is still where the lookup was made. */
  predicate Steady(s: State, t: nat, i: nat)
    requires t in s.stacks && i < |s.stacks[t]|
  {
    var e := s.stacks[t][i];
    Dropping(e) ==>
      && e.masked && i == |s.stacks[t]| - 1
      && (e.Leaving? ==> e.at < |s.current| && s.current[e.at] == Some(t))
  }

  ghost predicate Sound(s: State, n: nat) {
    && Ok(s, n)
    && forall t, i :: t in s.stacks && 0 <= i < |s.stacks[t]| ==> Steady(s, t, i)
  }

  /** A masked drop is never carried to another CPU. */
  lemma SoundIsPrompt(s: State, n: nat, a: Action)
    requires Sound(s, n) && Enabled(s, n, a)
    ensures Prompt(s, n, a)
  {
    if a.Restore? {
      assert Steady(s, s.current[a.c].value, |StackOn(s, n, a.c)| - 1);
    }
  }

  predicate SteadyOn(st: Stack, c: nat) {
    forall i :: 0 <= i < |st| && Dropping(st[i]) ==>
      i == |st| - 1 && st[i].masked && (st[i].Leaving? ==> st[i].at == c)
  }

  /** A step on the stack of CPU `c`'s task. */
  lemma SteadyStack(s: State, s': State, n: nat, c: nat, st: Stack)
    requires Sound(s, n) && On(s, n, c) && s'.current == s.current
    requires s'.stacks == s.stacks[s.current[c].value := st] && SteadyOn(st, c)
    ensures forall t, i :: t in s'.stacks && 0 <= i < |s'.stacks[t]| ==> Steady(s', t, i)
  {
    forall t, i | t in s'.stacks && 0 <= i < |s'.stacks[t]| ensures Steady(s', t, i) {
      if t != s.current[c].value {
        assert Steady(s, t, i);
      }
    }
  }

  lemma SoundSteadyOn(s: State, n: nat, c: nat)
    requires Sound(s, n) && On(s, n, c)
    ensures SteadyOn(StackOn(s, n, c), c)
  {
    var st := StackOn(s, n, c);
    forall i | 0 <= i < |st| && Dropping(st[i])
      ensures i == |st| - 1 && st[i].masked && (st[i].Leaving? ==> st[i].at == c)
    {
      assert Steady(s, s.current[c].value, i);
    }
  }

  /** What a step other than a spawn or a switch does to the stack it works on. */
  lemma StackAction(s: State, n: nat, a: Action)
    requires Enabled(s, n, a) && !a.Spawn? && !a.Switch? && (a.Lookup? ==> a.masked)
    requires SteadyOn(StackOn(s, n, a.c), a.c)
    ensures var s' := Step(s, n, a);
            && s'.current == s.current && On(s', n, a.c) && SteadyOn(StackOn(s', n, a.c), a.c)
            && s'.stacks == s.stacks[s.current[a.c].value := StackOn(s', n, a.c)]
  {
  }

  lemma SteadySwitch(s: State, n: nat, c: nat, next: Option<nat>)
    requires Sound(s, n) && Enabled(s, n, Switch(c, next))
    ensures Sound(Step(s, n, Switch(c, next)), n)
  {
    var s' := Step(s, n, Switch(c, next));
    PromptStep(s, n, Switch(c, next));
    forall t, i | t in s'.stacks && 0 <= i < |s'.stacks[t]| ensures Steady(s', t, i) {
      assert Steady(s, t, i);
    }
  }

  lemma SteadySpawn(s: State, n: nat, t: nat)
    requires Sound(s, n) && Enabled(s, n, Spawn(t))
    ensures Sound(Step(s, n, Spawn(t)), n)
  {
    var s' := Step(s, n, Spawn(t));
    PromptStep(s, n, Spawn(t));
    forall u, i | u in s'.stacks && 0 <= i < |s'.stacks[u]| ensures Steady(s', u, i) {
      assert Steady(s, u, i);
    }
  }

  /** Every step of a kernel that masks its drops keeps every slot right. */
  lemma StepSound(s: State, n: nat, a: Action)
    requires Sound(s, n) && Enabled(s, n, a) && (a.Lookup? ==> a.masked)
    ensures Sound(Step(s, n, a), n)
  {
    if a.Spawn? {
      SteadySpawn(s, n, a.task);
    } else if a.Switch? {
      SteadySwitch(s, n, a.c, a.next);
    } else {
      SoundIsPrompt(s, n, a);
      PromptStep(s, n, a);
      SoundSteadyOn(s, n, a.c);
      StackAction(s, n, a);
      SteadyStack(s, Step(s, n, a), n, a.c, StackOn(Step(s, n, a), n, a.c));
    }
  }

  lemma {:induction false} RunSound(s: State, n: nat, run: seq<Action>, s': State)
    requires Sound(s, n) && Runs(s, n, run, s') && Masked(run)
    ensures Sound(s', n)
    decreases |run|
  {
    if run != [] {
      StepSound(s, n, run[0]);
      RunSound(Step(s, n, run[0]), n, run[1..], s');
    }
  }

  lemma ReachableSound(s: State, n: nat)
    requires Reachable(s, n)
    ensures Sound(s, n)
  {
    var run :| Runs(Init(n), n, run, s) && Masked(run);
    RunSound(Init(n), n, run, s);
  }

  // ---- the theorems ----------------------------------------------------------------------

  /** Every CPU's slot is the innermost guard of its running task: 0 on an
      idle CPU or for a task outside every trap, the topmost guard's trapframe when
      nothing is suspended, wherever that guard was created. */
  lemma SlotShowsInnermostGuard(s: State, n: nat, c: nat)
    requires Reachable(s, n) && c < n
    ensures |s.slots| == |s.current| == n
    ensures s.current[c].None? ==> s.slots[c] == 0
    ensures s.current[c].Some? ==>
              && On(s, n, c) && s.slots[c] == Visible(StackOn(s, n, c))
              && (StackOn(s, n, c) == [] ==> s.slots[c] == 0)
              && (StackOn(s, n, c) != [] && Top(StackOn(s, n, c)).Guard? ==> s.slots[c] == Top(StackOn(s, n, c)).ptr)
  {
    ReachableSound(s, n);
    assert s.slots[c] == Exposed(s, n, c);
  }

  /** Dropping the innermost guard, here or after a migration, uncovers exactly the
      next-outer one on the current CPU and leaves every other slot alone. */
  lemma DropUncoversOuter(s: State, n: nat, c: nat)
    requires Reachable(s, n) && Enabled(s, n, Restore(c))
    ensures Step(s, n, Restore(c)).slots == s.slots[c := Visible(Below(StackOn(s, n, c)))]
  {
    ReachableSound(s, n);
    SoundIsPrompt(s, n, Restore(c));
    RestoreOk(s, n, c);
  }

  /** The clean-up of the guard's original slot changes nothing. */
  lemma OriginalSlotUntouched(s: State, n: nat, c: nat)
    requires Reachable(s, n) && Enabled(s, n, Unwind(c))
    ensures Step(s, n, Unwind(c)).slots == s.slots
  {
    ReachableSound(s, n);
    UnwindOk(s, n, c);
  }

  // ---- drops that are not masked ---------------------------------------------------------

  /** Task `t` is on CPU `d` with the open drop of stack `st` innermost. */
  predicate DropAt(s: State, n: nat, d: nat, t: nat, st: Stack) {
    Enabled(s, n, Restore(d)) && s.current[d] == Some(t) && StackOn(s, n, d) == st
  }

  /** The drop innermost on CPU `d` leaves that CPU's slot on the next-outer guard. */
  predicate DropsRight(s: State, n: nat, d: nat)
    requires Enabled(s, n, Restore(d))
  {
    Step(s, n, Restore(d)).slots[d] == Visible(Below(StackOn(s, n, d)))
  }

  /** Whatever happens until task `t` completes the drop innermost on its stack, the
      drop is right; all other drops meanwhile are masked. */
  ghost predicate AlwaysRight(s: State, n: nat, t: nat)
    requires t in s.stacks
  {
    forall s', d :: Leads(s, n, s') && DropAt(s', n, d, t, s.stacks[t]) ==> DropsRight(s', n, d)
  }

  /** A drop is right in every continuation if and only if it is made with interrupts
      masked or there is no second CPU. */
  lemma DropRightIffMasked(s: State, n: nat, c: nat, masked: bool)
    requires Reachable(s, n) && Enabled(s, n, Lookup(c, masked))
    ensures s.current[c].value in Step(s, n, Lookup(c, masked)).stacks
    ensures AlwaysRight(Step(s, n, Lookup(c, masked)), n, s.current[c].value) <==> masked || n == 1
  {
    ReachableSound(s, n);
    var s1 := Step(s, n, Lookup(c, masked));
    var t := s.current[c].value;
    if masked {
      StepSound(s, n, Lookup(c, masked));
      MaskedDropRight(s1, n, t);
    } else if n == 1 {
      LookupOk(s, n, c, masked);
      OneCpuDropRight(s1, t);
    } else {
      var s', d := InterruptSplitsDrop(s, n, c);
      assert Leads(s1, n, s') && DropAt(s', n, d, t, s1.stacks[t]);
    }
  }

  lemma MaskedDropRight(s: State, n: nat, t: nat)
    requires Sound(s, n) && t in s.stacks
    ensures AlwaysRight(s, n, t)
  {
    forall s', d | Leads(s, n, s') && DropAt(s', n, d, t, s.stacks[t]) ensures DropsRight(s', n, d) {
      var run :| Runs(s, n, run, s') && Masked(run);
      RunSound(s, n, run, s');
      SoundIsPrompt(s', n, Restore(d));
      RestoreOk(s', n, d);
    }
  }

  lemma OneCpuDropRight(s: State, t: nat)
    requires Ok(s, 1) && t in s.stacks
    ensures AlwaysRight(s, 1, t)
  {
    forall s', d | Leads(s, 1, s') && DropAt(s', 1, d, t, s.stacks[t]) ensures DropsRight(s', 1, d) {
      var run :| Runs(s, 1, run, s') && Masked(run);
      OneCpuRunOk(s, run, s');
      RestoreOk(s', 1, d);
    }
  }

  lemma {:induction false} OneCpuRunOk(s: State, run: seq<Action>, s': State)
    requires Ok(s, 1) && Runs(s, 1, run, s')
    ensures Ok(s', 1)
    decreases |run|
  {
    if run != [] {
      PromptStep(s, 1, run[0]);
      OneCpuRunOk(Step(s, 1, run[0]), run[1..], s');
    }
  }

  /** A drop is right if and only if its task still runs on the CPU whose slot it
      looked up; otherwise the slot keeps pointing at the dropped guard's trapframe. */
  lemma DropRightIffPrompt(s: State, n: nat, c: nat)
    requires Ok(s, n) && Enabled(s, n, Restore(c))
    ensures |Step(s, n, Restore(c)).slots| == n
    ensures DropsRight(s, n, c) <==> Top(StackOn(s, n, c)).at == c
    ensures Top(StackOn(s, n, c)).at != c ==>
              Step(s, n, Restore(c)).slots == s.slots && s.slots[c] == Top(StackOn(s, n, c)).ptr
  {
    var st := StackOn(s, n, c);
    var l := Top(st);
    var t := s.current[c].value;
    assert s.slots[c] == Exposed(s, n, c) == l.ptr;
    if l.at == c {
      RestoreOk(s, n, c);
    } else {
      ForeignSlot(s, n, c, l.at, |st| - 1);
      assert PlaceOk(s, n, t, |st| - 1) && Chained(st);
      VisibleIsHeld(Below(st));
      if Visible(Below(st)) != 0 {
        var j :| 0 <= j < |Below(st)| && HasPtr(Below(st)[j]) && Below(st)[j].ptr == Visible(Below(st));
        assert PlaceOk(s, n, t, j);
      }
    }
  }

  /** A run of prompt steps whose drops are masked. */
  ghost predicate PromptRun(s: State, n: nat, run: seq<Action>, s': State)
    decreases |run|
  {
    if run == [] then s' == s
    else
      && Enabled(s, n, run[0]) && Prompt(s, n, run[0]) && (run[0].Lookup? ==> run[0].masked)
      && PromptRun(Step(s, n, run[0]), n, run[1..], s')
  }

  ghost predicate Onward(s: State, n: nat, s': State) {
    exists run :: PromptRun(s, n, run, s')
  }

  lemma {:induction false} PromptRunOk(s: State, n: nat, run: seq<Action>, s': State)
    requires Ok(s, n) && PromptRun(s, n, run, s')
    ensures Ok(s', n) && Runs(s, n, run, s') && Masked(run)
    decreases |run|
  {
    if run != [] {
      PromptStep(s, n, run[0]);
      PromptRunOk(Step(s, n, run[0]), n, run[1..], s');
      assert run == [run[0]] + run[1..];
    }
  }

  lemma OnwardOk(s: State, n: nat, s': State)
    requires Ok(s, n) && Onward(s, n, s')
    ensures Ok(s', n) && Leads(s, n, s')
  {
    var run :| PromptRun(s, n, run, s');
    PromptRunOk(s, n, run, s');
  }

  lemma {:induction false} PromptRunAppend(s: State, n: nat, run: seq<Action>, s': State, a: Action)
    requires PromptRun(s, n, run, s') && Enabled(s', n, a) && Prompt(s', n, a) && (a.Lookup? ==> a.masked)
    ensures PromptRun(s, n, run + [a], Step(s', n, a))
    decreases |run|
  {
    if run == [] {
      assert (run + [a])[1..] == [];
      assert PromptRun(Step(s, n, a), n, [], Step(s', n, a));
    } else {
      PromptRunAppend(Step(s, n, run[0]), n, run[1..], s', a);
      assert (run + [a])[1..] == run[1..] + [a];
    }
  }

  lemma Onwards(s0: State, n: nat, s: State, a: Action)
    requires Onward(s0, n, s) && Enabled(s, n, a) && Prompt(s, n, a) && (a.Lookup? ==> a.masked)
    ensures Onward(s0, n, Step(s, n, a))
  {
    var run :| PromptRun(s0, n, run, s);
    PromptRunAppend(s0, n, run, s, a);
  }

  /** Only the stack of CPU `d`'s task may have changed. */
  predicate OthersKept(s: State, s': State, d: nat)
    requires d < |s.current|
  {
    && |s'.slots| == |s.slots| && s'.stacks.Keys == s.stacks.Keys
    && forall t :: t in s.stacks && s.current[d] != Some(t) ==> s'.stacks[t] == s.stacks[t]
  }

  /** A drop open on CPU `d` can be completed there, and none is open below it. */
  predicate Completable(s: State, n: nat, d: nat) {
    On(s, n, d) ==>
      SteadyOn(StackOn(s, n, d), d) && (DropOpen(s, n, d) ==> Top(StackOn(s, n, d)).cpu < n)
  }

  lemma SoundCompletable(s: State, n: nat, d: nat)
    requires Sound(s, n) && d < n
    ensures Completable(s, n, d)
  {
    if On(s, n, d) {
      SoundSteadyOn(s, n, d);
      if DropOpen(s, n, d) {
        assert PlaceOk(s, n, s.current[d].value, |StackOn(s, n, d)| - 1);
      }
    }
  }

  /** A drop open on CPU `d` runs to its end. */
  lemma DropCompletes(s0: State, n: nat, s: State, d: nat) returns (s': State)
    requires Onward(s0, n, s) && |s.slots| == |s.current| == n && On(s, n, d) && Completable(s, n, d)
    ensures Onward(s0, n, s') && s'.current == s.current && On(s', n, d) && !DropOpen(s', n, d)
    ensures OthersKept(s, s', d)
    decreases |StackOn(s, n, d)|, DropOpen(s, n, d) && Top(StackOn(s, n, d)).Leaving?
  {
    if !DropOpen(s, n, d) {
      s' := s;
    } else {
      var a := if Top(StackOn(s, n, d)).Leaving? then Restore(d) else Unwind(d);
      Onwards(s0, n, s, a);
      s' := DropCompletes(s0, n, Step(s, n, a), d);
    }
  }

  /** CPU `d` can always be vacated. */
  lemma Vacate(s0: State, n: nat, s: State, d: nat) returns (s': State)
    requires Onward(s0, n, s) && |s.slots| == |s.current| == n && d < n && Completable(s, n, d)
    requires s.current[d].Some? ==> On(s, n, d)
    ensures Onward(s0, n, s') && s'.current == s.current[d := None]
    ensures OthersKept(s, s', d)
  {
    if s.current[d].None? {
      s' := s;
    } else {
      var s1 := DropCompletes(s0, n, s, d);
      Onwards(s0, n, s1, Suspend(d));
      var s2 := Step(s1, n, Suspend(d));
      Onwards(s0, n, s2, Switch(d, None));
      s' := Step(s2, n, Switch(d, None));
    }
  }

  lemma FreshTrapframe(live: map<nat, (nat, nat)>) returns (ptr: nat)
    ensures ptr != 0 && ptr !in live
  {
    ptr := UpperBound(live.Keys);
  }

  lemma UpperBound(xs: set<nat>) returns (b: nat)
    ensures b != 0 && forall x :: x in xs ==> x < b
  {
    if xs == {} {
      b := 1;
    } else {
      var x :| x in xs;
      var b' := UpperBound(xs - {x});
      b := if x < b' then b' else x + 1;
      assert forall y :: y in xs ==> y == x || y in xs - {x};
    }
  }

  /** An interrupt comes between the lookup and the compare-exchange of an unmasked
      drop: its tail suspends the marker, so the scheduler may move this task to another
      CPU before the drop goes on there, on the slot of the CPU it left. */
  lemma InterruptSplitsDrop(s: State, n: nat, c: nat) returns (s': State, d: nat)
    requires Sound(s, n) && n >= 2 && Enabled(s, n, Lookup(c, false))
    ensures var t, s1 := s.current[c].value, Step(s, n, Lookup(c, false));
            && t in s1.stacks && Leads(s1, n, s') && DropAt(s', n, d, t, s1.stacks[t]) && d != c
            && !DropsRight(s', n, d)
            && Step(s', n, Restore(d)).slots[d] == Top(s1.stacks[t]).ptr
  {
    var s1 := Step(s, n, Lookup(c, false));
    d := if c == 0 then 1 else 0;
    SoundCompletable(s, n, d);
    LookupOk(s, n, c, false);
    s' := DropLeaves(s1, n, c, d);
    OnwardOk(s1, n, s');
    DropRightIffPrompt(s', n, d);
  }

  /** The CPUs and stacks just after an unmasked lookup on CPU `c`. */
  predicate LookedUp(s: State, n: nat, c: nat, d: nat) {
    && |s.slots| == |s.current| == n && d < n && d != c
    && DropOpen(s, n, c) && Top(StackOn(s, n, c)).Leaving? && Top(StackOn(s, n, c)).at == c
    && !Top(StackOn(s, n, c)).masked
    && (forall e :: 0 <= e < n && s.current[e] == s.current[c] ==> e == c)
    && (s.current[d].Some? ==> On(s, n, d)) && Completable(s, n, d)
  }

  /** From there the task can come to CPU `d` with its drop still open. */
  lemma DropLeaves(s: State, n: nat, c: nat, d: nat) returns (s': State)
    requires LookedUp(s, n, c, d)
    ensures Onward(s, n, s') && |s'.slots| == |s'.current| == n
    ensures s'.current[d] == s.current[c] && On(s', n, d) && StackOn(s', n, d) == StackOn(s, n, c)
  {
    assert PromptRun(s, n, [], s);
    var s2 := Vacate(s, n, s, d);
    s' := DropMoved(s, n, s2, c, d, StackOn(s, n, c));
  }

  /** The task of CPU `c` is interrupted in its drop and goes on with it on idle CPU `d`. */
  lemma DropMoved(s0: State, n: nat, s: State, c: nat, d: nat, st: Stack) returns (s': State)
    requires Onward(s0, n, s) && |s.slots| == |s.current| == n && On(s, n, c) && StackOn(s, n, c) == st
    requires DropOpen(s, n, c) && !Top(st).masked && d < n && d != c && s.current[d].None?
    requires forall e :: 0 <= e < n && s.current[e] == s.current[c] ==> e == c
    ensures Onward(s0, n, s') && |s'.slots| == |s'.current| == n
    ensures s'.current[d] == s.current[c] && On(s', n, d) && StackOn(s', n, d) == st && |s'.slots| == n
  {
    var t := s.current[c];
    var ptr := FreshTrapframe(s.live);
    var s3 := Interrupted(s0, n, s, c, ptr);
    Onwards(s0, n, s3, Switch(c, None));
    var s4 := Step(s3, n, Switch(c, None));
    assert Idle(s4, t.value);
    Onwards(s0, n, s4, Switch(d, t));
    s' := InterruptReturns(s0, n, Step(s4, n, Switch(d, t)), c, d, ptr, st);
  }

  /** An interrupt is taken on CPU `c`, handled, and its tail enters the scheduler. */
  lemma Interrupted(s0: State, n: nat, s: State, c: nat, ptr: nat) returns (s': State)
    requires Onward(s0, n, s) && Enabled(s, n, Install(c, ptr))
    ensures Onward(s0, n, s') && s'.current == s.current && On(s', n, c) && |s'.slots| == n
    ensures StackOn(s', n, c) == StackOn(s, n, c) + [Guard(c, ptr, s.slots[c]), Token(ptr), Token(0)]
  {
    var st := StackOn(s, n, c);
    Onwards(s0, n, s, Install(c, ptr));
    var s1 := Step(s, n, Install(c, ptr));
    Onwards(s0, n, s1, Suspend(c));
    var s2 := Step(s1, n, Suspend(c));
    Onwards(s0, n, s2, Suspend(c));
    s' := Step(s2, n, Suspend(c));
    assert StackOn(s', n, c) == st + [Guard(c, ptr, s.slots[c])] + [Token(ptr)] + [Token(0)];
  }

  /** Now on CPU `d`, the resumed task takes both tokens back. */
  lemma InterruptResumes(s0: State, n: nat, s: State, d: nat, ptr: nat, st: Stack) returns (s': State)
    requires Onward(s0, n, s) && |s.slots| == |s.current| == n && On(s, n, d)
    requires st != [] && StackOn(s, n, d) == st + [Token(ptr), Token(0)]
    ensures Onward(s0, n, s') && s'.current == s.current && On(s', n, d) && StackOn(s', n, d) == st && |s'.slots| == n
  {
    Onwards(s0, n, s, Resume(d));
    var s1 := Step(s, n, Resume(d));
    assert StackOn(s1, n, d) == st + [Token(ptr)];
    Onwards(s0, n, s1, Resume(d));
    s' := Step(s1, n, Resume(d));
    assert StackOn(s', n, d) == st;
  }

  /** Dropping the innermost guard, which was made on another CPU. */
  lemma GuardDropped(s0: State, n: nat, s: State, c: nat, d: nat, ptr: nat, prev: nat, st: Stack) returns (s': State)
    requires Onward(s0, n, s) && |s.slots| == |s.current| == n && On(s, n, d) && c < n && d != c && ptr != 0
    requires StackOn(s, n, d) == st + [Guard(c, ptr, prev)]
    ensures Onward(s0, n, s') && s'.current == s.current && On(s', n, d) && StackOn(s', n, d) == st && |s'.slots| == n
  {
    Onwards(s0, n, s, Lookup(d, true));
    var s3 := Step(s, n, Lookup(d, true));
    assert StackOn(s3, n, d) == st + [Leaving(c, ptr, prev, d, true)];
    Onwards(s0, n, s3, Restore(d));
    var s4 := Step(s3, n, Restore(d));
    assert StackOn(s4, n, d) == st + [Unwinding(c, ptr, prev, true)];
    Onwards(s0, n, s4, Unwind(d));
    s' := Step(s4, n, Unwind(d));
    assert StackOn(s', n, d) == st;
  }

  /** Now on CPU `d`, both tokens are taken back, then comes the drop of the interrupt's guard. */
  lemma InterruptReturns(s0: State, n: nat, s: State, c: nat, d: nat, ptr: nat, st: Stack) returns (s': State)
    requires Onward(s0, n, s) && |s.slots| == |s.current| == n && On(s, n, d) && c < n && d != c && ptr != 0
    requires exists prev :: StackOn(s, n, d) == st + [Guard(c, ptr, prev), Token(ptr), Token(0)]
    ensures Onward(s0, n, s') && s'.current == s.current && On(s', n, d) && StackOn(s', n, d) == st && |s'.slots| == n
  {
    var prev :| StackOn(s, n, d) == st + [Guard(c, ptr, prev), Token(ptr), Token(0)];
    var st1 := st + [Guard(c, ptr, prev)];
    assert StackOn(s, n, d) == st1 + [Token(ptr), Token(0)];
    var s2 := InterruptResumes(s0, n, s, d, ptr, st1);
    s' := GuardDropped(s0, n, s2, c, d, ptr, prev, st);
  }

  /** Such a run exists: a task on the first of two CPUs takes a trap and drops its guard unmasked. */
  lemma UnmaskedDropFails() returns (s: State, s': State, d: nat)
    ensures Reachable(s, 2) && Enabled(s, 2, Lookup(0, false))
    ensures Leads(Step(s, 2, Lookup(0, false)), 2, s')
    ensures Enabled(s', 2, Restore(d)) && !DropsRight(s', 2, d)
  {
    s := TrapTaken();
    ReachableSound(s, 2);
    s', d := InterruptSplitsDrop(s, 2, 0);
  }

  lemma TrapTaken() returns (s: State)
    ensures Reachable(s, 2) && Enabled(s, 2, Lookup(0, false))
  {
    s := TrapRun(Init(2));
    OnwardOk(Init(2), 2, s);
  }

  lemma TrapRun(i: State) returns (s: State)
    requires i.slots == [0, 0] && i.current == [None, None] && i.stacks == map[] && i.live == map[]
    ensures Onward(i, 2, s) && Enabled(s, 2, Lookup(0, false))
  {
    assert PromptRun(i, 2, [], i);
    Onwards(i, 2, i, Spawn(0));
    var s1 := Step(i, 2, Spawn(0));
    assert Idle(s1, 0);
    Onwards(i, 2, s1, Switch(0, Some(0)));
    var s2 := Step(s1, 2, Switch(0, Some(0)));
    Onwards(i, 2, s2, Install(0, 1));
    s := Step(s2, 2, Install(0, 1));
  }

  // ---- the slot operations themselves ------------------------------------------------------

  /** `ACTIVE_EXCEPTION_CONTEXT_PTR` of all CPUs, and the transition system's state it
      is part of. */
  class ContextSlots {
    const slots: array<nat>
    ghost var s: State

    ghost predicate Valid()
      reads this, slots
    {
      Sound(s, slots.Length) && slots[..] == s.slots
    }

    constructor (n: nat)
      ensures Valid() && fresh(slots) && slots.Length == n && s == Init(n)
    {
      slots := new nat[n](_ => 0);
      s := Init(n);
    }

    /** The new guard is innermost and its trapframe is exposed. */
    method Install(c: nat, ptr: nat) returns (g: Entry)
      requires Valid() && Enabled(s, slots.Length, Action.Install(c, ptr))
      modifies this, slots
      ensures Valid() && s == Step(old(s), slots.Length, Action.Install(c, ptr))
      ensures On(s, slots.Length, c) && StackOn(s, slots.Length, c) == old(StackOn(s, slots.Length, c)) + [g]
      ensures slots[..] == old(slots[..])[c := ptr]
    {
      StepSound(s, slots.Length, Action.Install(c, ptr));
      s := Step(s, slots.Length, Action.Install(c, ptr));
      var prev := slots[c];
      slots[c] := ptr;
      g := Guard(c, ptr, prev);
    }

    /** The token is innermost and nothing is exposed. */
    method Suspend(c: nat) returns (token: Entry)
      requires Valid() && Enabled(s, slots.Length, Action.Suspend(c))
      modifies this, slots
      ensures Valid() && s == Step(old(s), slots.Length, Action.Suspend(c))
      ensures On(s, slots.Length, c) && StackOn(s, slots.Length, c) == old(StackOn(s, slots.Length, c)) + [token]
      ensures slots[..] == old(slots[..])[c := 0]
    {
      StepSound(s, slots.Length, Action.Suspend(c));
      s := Step(s, slots.Length, Action.Suspend(c));
      token := Token(slots[c]);
      slots[c] := 0;
    }

    /** What was innermost before the suspension is exposed again, on this CPU. */
    method Resume(c: nat, token: Entry)
      requires Valid() && Enabled(s, slots.Length, Action.Resume(c)) && token == Top(StackOn(s, slots.Length, c))
      modifies this, slots
      ensures Valid() && s == Step(old(s), slots.Length, Action.Resume(c))
      ensures slots[..] == old(slots[..])[c := Visible(Below(old(StackOn(s, slots.Length, c))))]
    {
      StepSound(s, slots.Length, Action.Resume(c));
      s := Step(s, slots.Length, Action.Resume(c));
      assert s.slots[c] == Exposed(s, slots.Length, c);
      if token.saved == 0 {
        return;
      }
      slots[c] := token.saved;
    }

    /** `restore_slot` on CPU `c`: the guard is gone, the next-outer one is exposed here
        and no other CPU's slot changes, wherever the guard was made. */
    method RestoreSlot(c: nat, g: Entry)
      requires Valid() && Enabled(s, slots.Length, Lookup(c, true)) && g == Top(StackOn(s, slots.Length, c))
      modifies this, slots
      ensures Valid() && s.current == old(s.current)
      ensures s.stacks == old(s.stacks[s.current[c].value := Below(StackOn(s, slots.Length, c))])
      ensures slots[..] == old(slots[..])[c := Visible(Below(old(StackOn(s, slots.Length, c))))]
    {
      ghost var n := slots.Length;
      DroppedOk(s, n, c);
      DroppedCas(s, n, c);
      s := Dropped(s, n, c);
      if c == g.cpu {
        slots[g.cpu] := Cas(slots[g.cpu], g.ptr, g.prev);
      } else {
        slots[c] := Cas(slots[c], g.ptr, g.prev);
        slots[g.cpu] := Cas(slots[g.cpu], g.ptr, g.prev);
      }
    }
  }

  /** The whole of a masked drop on CPU `c`. */
  ghost function Dropped(s: State, n: nat, c: nat): State
    requires Enabled(s, n, Lookup(c, true)) && Top(StackOn(s, n, c)).cpu < n
  {
    var s2 := Step(Step(s, n, Lookup(c, true)), n, Restore(c));
    if Top(StackOn(s, n, c)).cpu == c then s2 else Step(s2, n, Unwind(c))
  }

  /** Its effect on the slots, by its compare-exchanges. */
  lemma DroppedCas(s: State, n: nat, c: nat)
    requires Enabled(s, n, Lookup(c, true)) && Top(StackOn(s, n, c)).cpu < n
    ensures var s', g := Dropped(s, n, c), Top(StackOn(s, n, c));
            && s'.current == s.current
            && s'.stacks == s.stacks[s.current[c].value := Below(StackOn(s, n, c))]
            && s'.slots == (if g.cpu == c then s.slots[c := Cas(s.slots[c], g.ptr, g.prev)]
                            else var slots := s.slots[c := Cas(s.slots[c], g.ptr, g.prev)];
                                 slots[g.cpu := Cas(slots[g.cpu], g.ptr, g.prev)])
  {
    var st, g := StackOn(s, n, c), Top(StackOn(s, n, c));
    var s1 := Step(s, n, Lookup(c, true));
    assert StackOn(s1, n, c) == Below(st) + [Leaving(g.cpu, g.ptr, g.prev, c, true)];
    assert Below(StackOn(s1, n, c)) == Below(st);
    var s2 := Step(s1, n, Restore(c));
    if g.cpu != c {
      assert StackOn(s2, n, c) == Below(st) + [Unwinding(g.cpu, g.ptr, g.prev, true)];
      assert Below(StackOn(s2, n, c)) == Below(st);
    }
  }

  /** Its effect on the slots, by what they expose. */
  lemma DroppedOk(s: State, n: nat, c: nat)
    requires Sound(s, n) && Enabled(s, n, Lookup(c, true))
    ensures Top(StackOn(s, n, c)).cpu < n && Sound(Dropped(s, n, c), n)
    ensures Dropped(s, n, c).slots == s.slots[c := Visible(Below(StackOn(s, n, c)))]
  {
    var st := StackOn(s, n, c);
    assert PlaceOk(s, n, s.current[c].value, |st| - 1);
    var s1 := Step(s, n, Lookup(c, true));
    LookupStep(s, n, c);
    DropStep(s1, n, c);
    if Top(st).cpu != c {
      UnwindStep(Step(s1, n, Restore(c)), n, c);
    }
  }

  lemma LookupStep(s: State, n: nat, c: nat)
    requires Sound(s, n) && Enabled(s, n, Lookup(c, true))
    ensures var s1 := Step(s, n, Lookup(c, true));
            Sound(s1, n) && s1.slots == s.slots && Below(StackOn(s1, n, c)) == Below(StackOn(s, n, c))
  {
    StepSound(s, n, Lookup(c, true));
    assert Below(StackOn(Step(s, n, Lookup(c, true)), n, c)) == Below(StackOn(s, n, c));
  }

  lemma UnwindStep(s: State, n: nat, c: nat)
    requires Sound(s, n) && Enabled(s, n, Unwind(c))
    ensures Sound(Step(s, n, Unwind(c)), n)
    ensures Step(s, n, Unwind(c)).slots == s.slots
  {
    UnwindOk(s, n, c);
    StepSound(s, n, Unwind(c));
  }

  lemma DropStep(s: State, n: nat, c: nat)
    requires Sound(s, n) && Enabled(s, n, Restore(c))
    ensures Sound(Step(s, n, Restore(c)), n)
    ensures Step(s, n, Restore(c)).slots == s.slots[c := Visible(Below(StackOn(s, n, c)))]
    ensures Top(StackOn(s, n, c)).at == c
  {
    SoundIsPrompt(s, n, Restore(c));
    RestoreOk(s, n, c);
    StepSound(s, n, Restore(c));
  }
}
