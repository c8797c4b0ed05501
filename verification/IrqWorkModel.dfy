/**
The per-CPU one-shot work queue (arch/kirq/src/irq_work.rs) as a transition
system.  Every access to `incoming`, `backlog`, a node's `next`, the flags and the
doorbell is one step.  Any number of submissions may be in progress at once, and
they interleave with the drain at every point, which includes arbitrarily nested
NMI submissions.  A node is its address; after its callback has run the storage
may be initialised and submitted again.
*/
module IrqWorkModel {

  const BUDGET: nat := 64  // CALLBACK_BUDGET

  function Min(a: nat, b: nat): nat {
    if a < b then a else b
  }

  /** Drains needed for `n` nodes: `n / 64`, rounded up. */
  function Rounds(n: nat): nat {
    (n + 63) / 64
  }

  lemma RoundsStep(n: nat)
    requires n > 0
    ensures Rounds(n) == 1 + Rounds(n - Min(64, n))
  {
  }

  /** A submission between winning `claimed` and its successful CAS. */
  datatype Producer = Loading | Linking(head: nat) | Publishing(head: nat)

  /** Program counter of `drain`; `k` counts completed callbacks. */
  datatype Drain =
    | Off
    | Accepted                                  // interrupt taken, is_running not yet swapped
    | Load(k: nat)
    | Detach(k: nat)
    | Take(k: nat, head: nat)
    | Store(k: nat, head: nat, rest: nat)
    | Call(k: nat, head: nat)
    | Check
    | Clear(hasBacklog: bool)
    | Peek(hasBacklog: bool)
    | Ring(again: bool)

  datatype State = State(
    next: map<nat, nat>,            // node links; 0 is null
    claimed: set<nat>,
    incoming: nat,
    backlog: nat,
    isReady: bool,
    isRunning: bool,
    doorbell: bool,                 // a notification is outstanding
    producers: map<nat, Producer>,  // by the node being published
    ringing: nat,                   // submissions between their CAS and their notify
    drain: Drain,
    // history
    inList: seq<nat>,               // nodes of the incoming list, newest first
    backList: seq<nat>,             // nodes detached and not yet dispatched
    done: set<nat>,                 // nodes whose callback has run
    life: map<nat, nat>,            // how often a node's storage was initialised anew
    runs: seq<(nat, nat)>)          // callbacks run: node and its life

  datatype Action =
    | Prepare             // init_current_cpu
    | Claim(a: nat)       // queue: readiness check and claimed CAS
    | Push(a: nat, spurious: bool)  // next operation of the submission of node a
    | Notify              // a submission past its CAS rings
    | Accept              // handle_irq
    | Consume             // next operation of drain
    | Reenter             // drain while is_running: returns at once
    | Recycle(a: nat)     // the owner reinitialises a node after its callback

  function Init(): State {
    State(map[], {}, 0, 0, false, false, false, map[], 0, Off, [], [], {}, map[], [])
  }

  function Life(s: State, a: nat): nat {
    if a in s.life then s.life[a] else 0
  }

  predicate Enabled(s: State, a: Action) {
    match a
    case Prepare => true
    case Claim(x) => s.isReady && x != 0 && x !in s.claimed
    case Push(x, _) => x in s.producers
    case Notify => s.ringing > 0
    case Accept => s.isReady && s.drain.Off?
    case Consume => !s.drain.Off? && (s.drain.Take? ==> s.drain.head in s.next)
    case Reenter => s.isRunning
    case Recycle(x) => x in s.done
  }

  function Step(s: State, a: Action): State
    requires Enabled(s, a)
  {
    match a
    case Prepare => s.(isReady := true)
    case Claim(x) => s.(claimed := s.claimed + {x}, producers := s.producers[x := Loading])
    case Push(x, spurious) => StepPush(s, x, spurious)
    case Notify => s.(ringing := s.ringing - 1, doorbell := true)
    case Accept => s.(doorbell := false, drain := Accepted)
    case Consume => StepDrain(s)
    case Reenter => s.(doorbell := false)
    case Recycle(x) => s.(claimed := s.claimed - {x}, done := s.done - {x}, life := s.life[x := Life(s, x) + 1])
  }

  function StepPush(s: State, x: nat, spurious: bool): State
    requires x in s.producers
  {
    match s.producers[x]
    case Loading => s.(producers := s.producers[x := Linking(s.incoming)])
    case Linking(h) => s.(next := s.next[x := h], producers := s.producers[x := Publishing(h)])
    case Publishing(h) =>
      if s.incoming == h && !spurious then
        s.(incoming := x, producers := s.producers - {x}, ringing := s.ringing + 1, inList := [x] + s.inList)
      else s.(producers := s.producers[x := Linking(s.incoming)])
  }

  function StepDrain(s: State): State
    requires Enabled(s, Consume)
  {
    match s.drain
    case Off => s
    case Accepted => if s.isRunning then s.(drain := Off) else s.(isRunning := true, drain := Load(0))
    case Load(k) =>
      if k >= BUDGET then s.(drain := Check)
      else if s.backlog == 0 then s.(drain := Detach(k))
      else s.(drain := Take(k, s.backlog))
    case Detach(k) =>
      var s' := s.(incoming := 0, inList := [], backList := s.inList);
      if s.incoming == 0 then s'.(drain := Check) else s'.(drain := Take(k, s.incoming))
    case Take(k, head) => s.(drain := Store(k, head, s.next[head]))
    case Store(k, head, rest) => s.(backlog := rest, drain := Call(k, head))
    case Call(k, head) =>
      s.(backList := if s.backList == [] then [] else s.backList[1..],
         done := s.done + {head}, runs := s.runs + [(head, Life(s, head))], drain := Load(k + 1))
    case Check => s.(drain := Clear(s.backlog != 0))
    case Clear(has) => s.(isRunning := false, drain := Peek(has))
    case Peek(has) => s.(drain := Ring(has || s.incoming != 0))
    case Ring(again) => s.(doorbell := s.doorbell || again, drain := Off)
  }

  /** The nodes whose link or callback an action accesses. */
  function Touches(s: State, a: Action): set<nat>
    requires Enabled(s, a)
  {
    match a
    case Claim(x) => {x}
    case Push(x, _) => {x}
    case Consume =>
      (match s.drain
       case Take(_, head) => {head}
       case Call(_, head) => {head}
       case _ => {})
    case _ => {}
  }

  ghost predicate Runs(s: State, run: seq<Action>, s': State)
    decreases |run|
  {
    if run == [] then s' == s else Enabled(s, run[0]) && Runs(Step(s, run[0]), run[1..], s')
  }

  ghost predicate Reachable(s: State) {
    exists run :: Runs(Init(), run, s)
  }
}
