/**
Fixed IPI notifications (arch/kipi/src/notification.rs): a per-CPU word that fuses
publishing a reason with observing whether the destination is enabled.
*/
module Notification {

  datatype Reason = Reschedule | TimerReprogram | BottomHalf | HighpriBottomHalf | Rcu

  // ---- the word -------------------------------------------------------------------------

  const ENABLED: bv64 := 1

  function Bit(r: Reason): bv64 {
    match r
    case Reschedule => 2
    case TimerReprogram => 4
    case BottomHalf => 8
    case HighpriBottomHalf => 16
    case Rcu => 32
  }

  /** The word's bits, one flag each. */
  datatype Flags = Flags(enabled: bool, reschedule: bool, timer: bool, bottomHalf: bool, highpri: bool, rcu: bool) {
    function Reasons(): set<Reason> {
      (if reschedule then {Reschedule} else {}) + (if timer then {TimerReprogram} else {}) +
      (if bottomHalf then {BottomHalf} else {}) + (if highpri then {HighpriBottomHalf} else {}) +
      (if rcu then {Rcu} else {})
    }

    function With(r: Reason): (f: Flags)
      ensures f.Reasons() == Reasons() + {r} && f.enabled == enabled
    {
      match r
      case Reschedule => this.(reschedule := true)
      case TimerReprogram => this.(timer := true)
      case BottomHalf => this.(bottomHalf := true)
      case HighpriBottomHalf => this.(highpri := true)
      case Rcu => this.(rcu := true)
    }
  }

  function View(w: bv64): Flags {
    Flags(w & 1 != 0, w & 2 != 0, w & 4 != 0, w & 8 != 0, w & 16 != 0, w & 32 != 0)
  }

  const NOTHING := Flags(false, false, false, false, false, false)

  lemma Publishes(w: bv64, r: Reason)
    ensures View(w | Bit(r)) == View(w).With(r)
  {
  }

  lemma Enables(w: bv64)
    ensures View(w | ENABLED) == View(w).(enabled := true)
  {
  }

  lemma Consumes(w: bv64)
    ensures View(w & ENABLED) == NOTHING.(enabled := View(w).enabled)
    ensures View(w & !ENABLED) == View(w).(enabled := false)
  {
  }

  // ---- the protocol around one destination's word -----------------------------------------

  datatype Event = Requested(reason: Reason) | Taken(reasons: set<Reason>)

  /** `atLoad` and `atAnd` count activations of `handle_pending` (the boot drain
      included) before the readiness load and before the fetch-and of `take`.  An
      IPI is latched: sends that arrive before delivery coalesce. */
  datatype State = State(
    isEnabled: bool, reasons: set<Reason>,
    unsent: nat,      // senders that must still issue their IPI
    latched: bool,    // an IPI is on its way
    atLoad: nat, atAnd: nat,
    log: seq<Event>)  // history

  datatype Action =
    | Request(reason: Reason)  // fetch_or of notify
    | Send                     // notify_cpu
    | Deliver                  // the latched IPI reaches its handler
    | Enter                    // the shared IPI arrives for another purpose
    | Enable                   // enable, after which the boot drain is due
    | LoadReady                // take: readiness load
    | FetchAnd                 // take: consume

  function Init(): State {
    State(false, {}, 0, false, 0, 0, [])
  }

  predicate Enabled(s: State, a: Action) {
    match a
    case Send => s.unsent > 0
    case Deliver => s.latched
    case LoadReady => s.atLoad > 0
    case FetchAnd => s.atAnd > 0
    case _ => true
  }

  function Step(s: State, a: Action): State
    requires Enabled(s, a)
  {
    match a
    case Request(r) =>
      s.(reasons := s.reasons + {r}, unsent := if s.isEnabled then s.unsent + 1 else s.unsent, log := s.log + [Requested(r)])
    case Send => s.(unsent := s.unsent - 1, latched := true)
    case Deliver => s.(latched := false, atLoad := s.atLoad + 1)
    case Enter => s.(atLoad := s.atLoad + 1)
    case Enable => s.(isEnabled := true, atLoad := s.atLoad + 1)
    case LoadReady => s.(atLoad := s.atLoad - 1, atAnd := if s.isEnabled then s.atAnd + 1 else s.atAnd)
    case FetchAnd => s.(atAnd := s.atAnd - 1, reasons := {}, log := s.log + [Taken(s.reasons)])
  }

  ghost predicate Runs(s: State, run: seq<Action>, s': State)
    decreases |run|
  {
    if run == [] then s' == s else Enabled(s, run[0]) && Runs(Step(s, run[0]), run[1..], s')
  }

  ghost predicate Reachable(s: State) {
    exists run :: Runs(Init(), run, s)
  }

  /** Reasons requested since the last effective take. */
  function Since(log: seq<Event>): set<Reason> {
    if log == [] then {} else
      match log[|log| - 1]
      case Requested(r) => Since(log[..|log| - 1]) + {r}
      case Taken(_) => {}
  }

  ghost predicate TakesExact(log: seq<Event>) {
    forall k :: 0 <= k < |log| && log[k].Taken? ==> log[k].reasons == Since(log[..k])
  }

  /** Something will still look at the word. */
  predicate Ahead(s: State) {
    s.unsent > 0 || s.latched || s.atLoad > 0 || s.atAnd > 0
  }

  ghost predicate Ok(s: State) {
    && (s.isEnabled && s.reasons != {} ==> Ahead(s))
    && s.reasons == Since(s.log)
    && TakesExact(s.log)
    && (!s.isEnabled ==> s.atAnd == 0 && s.unsent == 0 && forall e :: e in s.log ==> e.Requested?)
  }

  lemma LogGrows(log: seq<Event>, e: Event)
    requires TakesExact(log) && (e.Taken? ==> e.reasons == Since(log))
    ensures TakesExact(log + [e])
    ensures Since(log + [e]) == if e.Taken? then {} else Since(log) + {e.reason}
  {
    var log' := log + [e];
    assert log'[..|log|] == log;
    forall k | 0 <= k < |log'| ensures log'[..k] == if k < |log| then log[..k] else log {
    }
  }

  lemma StepOk(s: State, a: Action)
    requires Ok(s) && Enabled(s, a)
    ensures Ok(Step(s, a))
  {
    match a
    case Request(r) => LogGrows(s.log, Requested(r));
    case FetchAnd => LogGrows(s.log, Taken(s.reasons));
    case _ =>
  }

  lemma {:induction false} RunOk(s: State, run: seq<Action>, s': State)
    requires Ok(s) && Runs(s, run, s')
    ensures Ok(s')
    decreases |run|
  {
    if run != [] {
      StepOk(s, run[0]);
      RunOk(Step(s, run[0]), run[1..], s');
    }
  }

  lemma ReachableOk(s: State)
    requires Reachable(s)
    ensures Ok(s)
  {
    var run :| Runs(Init(), run, s);
    RunOk(Init(), run, s);
  }

  /** A reason pending on an enabled CPU has an unsent or undelivered IPI, or a
      handler that has not consumed yet, ahead of it. */
  lemma PendingHasTakerAhead(s: State)
    requires Reachable(s) && s.isEnabled && s.reasons != {}
    ensures s.unsent > 0 || s.latched || s.atLoad > 0 || s.atAnd > 0
  {
    ReachableOk(s);
  }

  /** Every effective take returns exactly what was requested since the one before,
      and there is none before enablement. */
  lemma TakeReturnsUnion(s: State, k: nat)
    requires Reachable(s) && k < |s.log| && s.log[k].Taken?
    ensures s.log[k].reasons == Since(s.log[..k]) && s.isEnabled
  {
    ReachableOk(s);
    assert s.log[k] in s.log;
  }

  lemma {:induction false} RequestedIsKept(log: seq<Event>, j: nat)
    requires TakesExact(log) && j < |log| && log[j].Requested?
    ensures log[j].reason in Since(log) || exists k :: j < k < |log| && log[k].Taken? && log[j].reason in log[k].reasons
    decreases |log|
  {
    var top := |log| - 1;
    var shorter := log[..top];
    if j < top {
      forall k | 0 <= k < top ensures shorter[k] == log[k] && shorter[..k] == log[..k] {
      }
      RequestedIsKept(shorter, j);
      if log[j].reason in Since(shorter) {
        if log[top].Taken? {
          assert log[top].reasons == Since(shorter);
        }
      } else {
        var k :| j < k < top && shorter[k].Taken? && log[j].reason in shorter[k].reasons;
        assert log[k].Taken?;
      }
    }
  }

  /** Once an enabled CPU is quiet, every request ever made, before or after
      enablement, has been returned by a later take. */
  lemma QuietMeansDelivered(s: State, j: nat)
    requires Reachable(s) && s.isEnabled && !Ahead(s)
    requires j < |s.log| && s.log[j].Requested?
    ensures exists k :: j < k < |s.log| && s.log[k].Taken? && s.log[j].reason in s.log[k].reasons
  {
    ReachableOk(s);
    RequestedIsKept(s.log, j);
  }

  // ---- deliveries come to an end ------------------------------------------------------------

  /** Steps that bring an accepted request nearer to its take. */
  predicate Delivery(a: Action) {
    a.Send? || a.Deliver? || a.LoadReady? || a.FetchAnd?
  }

  /** Operations still ahead of the word. */
  function Outstanding(s: State): nat {
    4 * s.unsent + (if s.latched then 3 else 0) + 2 * s.atLoad + s.atAnd
  }

  /** Each of them leaves less to do, and as long as anything is ahead one of them can happen. */
  lemma DeliveryProgress(s: State, a: Action)
    requires Enabled(s, a) && Delivery(a)
    ensures Outstanding(Step(s, a)) < Outstanding(s) && Step(s, a).isEnabled == s.isEnabled
    ensures forall r :: Requested(r) in Step(s, a).log ==> Requested(r) in s.log
  {
  }

  lemma SomethingAhead(s: State) returns (a: Action)
    requires Ahead(s)
    ensures Enabled(s, a) && Delivery(a)
  {
    a := if s.unsent > 0 then Send else if s.latched then Deliver else if s.atLoad > 0 then LoadReady else FetchAnd;
  }

  ghost predicate Deliveries(run: seq<Action>) {
    forall a :: a in run ==> Delivery(a)
  }

  /** However the operations ahead are ordered, no more than `Outstanding` of them happen
      before new requests come. */
  lemma {:induction false} DeliveriesEnd(s: State, run: seq<Action>, s': State)
    requires Runs(s, run, s') && Deliveries(run)
    ensures |run| <= Outstanding(s) - Outstanding(s') && s'.isEnabled == s.isEnabled
    decreases |run|
  {
    if run != [] {
      DeliveryProgress(s, run[0]);
      DeliveriesEnd(Step(s, run[0]), run[1..], s');
    }
  }

  lemma {:induction false} RunsAppend(s: State, run: seq<Action>, m: State, a: Action)
    requires Runs(s, run, m) && Enabled(m, a)
    ensures Runs(s, run + [a], Step(m, a))
    decreases |run|
  {
    if run == [] {
      assert (run + [a])[1..] == [];
      assert Runs(Step(s, a), [], Step(m, a));
    } else {
      RunsAppend(Step(s, run[0]), run[1..], m, a);
      assert (run + [a])[1..] == run[1..] + [a];
    }
  }

  lemma StepReachable(s: State, a: Action)
    requires Reachable(s) && Enabled(s, a)
    ensures Reachable(Step(s, a))
  {
    var run :| Runs(Init(), run, s);
    RunsAppend(Init(), run, s, a);
  }

  /** From every reachable state a quiet one is reached by deliveries alone. */
  lemma ComesToRest(s: State) returns (run: seq<Action>, s': State)
    requires Reachable(s)
    ensures Runs(s, run, s') && Deliveries(run) && Reachable(s') && !Ahead(s') && s'.isEnabled == s.isEnabled
    decreases Outstanding(s)
  {
    if !Ahead(s) {
      run, s' := [], s;
    } else {
      var a := SomethingAhead(s);
      DeliveryProgress(s, a);
      StepReachable(s, a);
      var rest;
      rest, s' := ComesToRest(Step(s, a));
      run := [a] + rest;
      assert run[1..] == rest;
    }
  }

  lemma {:induction false} LogKept(s: State, run: seq<Action>, s': State)
    requires Runs(s, run, s')
    ensures s.log <= s'.log
    decreases |run|
  {
    if run != [] {
      LogKept(Step(s, run[0]), run[1..], s');
    }
  }

  /** Every request made to an enabled CPU is delivered: whenever no further operation is
      possible before the next request, a later take has returned it, and that point is
      reached after at most `Outstanding` operations. */
  lemma EveryRequestDelivered(s: State, run: seq<Action>, s': State, j: nat)
    requires Reachable(s) && s.isEnabled && j < |s.log| && s.log[j].Requested?
    requires Runs(s, run, s') && Deliveries(run) && forall a :: Delivery(a) ==> !Enabled(s', a)
    ensures |run| <= Outstanding(s)
    ensures exists k :: j < k < |s'.log| && s'.log[k].Taken? && s.log[j].reason in s'.log[k].reasons
  {
    DeliveriesEnd(s, run, s');
    LogKept(s, run, s');
    RunReachable(s, run, s');
    if Ahead(s') {
      var a := SomethingAhead(s');
    }
    assert s'.log[j] == s.log[j];
    QuietMeansDelivered(s', j);
  }

  lemma {:induction false} RunReachable(s: State, run: seq<Action>, s': State)
    requires Reachable(s) && Runs(s, run, s')
    ensures Reachable(s')
    decreases |run|
  {
    if run != [] {
      StepReachable(s, run[0]);
      RunReachable(Step(s, run[0]), run[1..], s');
    }
  }

  // ---- the word itself ------------------------------------------------------------------------

  ghost predicate Matches(w: bv64, s: State) {
    Ok(s) && View(w).enabled == s.isEnabled && View(w).Reasons() == s.reasons
  }

  lemma RequestMatches(w: bv64, w': bv64, s: State, reason: Reason)
    requires Matches(w, s) && w' == w | Bit(reason)
    ensures Matches(w', Step(s, Request(reason))) && (w & ENABLED != 0) == s.isEnabled
    ensures View(w').Reasons() == View(w).Reasons() + {reason} && View(w').enabled == View(w).enabled == s.isEnabled
  {
    Publishes(w, reason);
    StepOk(s, Request(reason));
  }

  lemma EnableMatches(w: bv64, w': bv64, s: State)
    requires Matches(w, s) && w' == w | ENABLED
    ensures Matches(w', Step(s, Enable)) && View(w').enabled && View(w').Reasons() == View(w).Reasons()
  {
    Enables(w);
    StepOk(s, Enable);
  }

  lemma LoadMatches(w: bv64, s: State)
    requires Matches(w, s) && s.atLoad > 0
    ensures Matches(w, Step(s, LoadReady))
  {
    StepOk(s, LoadReady);
  }

  lemma FetchMatches(w: bv64, s: State)
    requires Matches(w, s) && s.atAnd > 0 && View(w).enabled
    ensures Matches(w & ENABLED, Step(s, FetchAnd)) && !View(w & !ENABLED).enabled
    ensures View(w & !ENABLED).Reasons() == View(w).Reasons()
  {
    Consumes(w);
    StepOk(s, FetchAnd);
  }

  /** The pending word, and the state of the protocol it is part of. */
  class PendingWord {
    var word: bv64
    ghost var s: State

    ghost predicate Valid()
      reads this
    {
      Matches(word, s)
    }

    constructor ()
      ensures Valid() && s == Init()
    {
      word := 0;
      s := Init();
    }

    /** Publishes `reason`; true when the sender has to issue an IPI. */
    method Request(reason: Reason) returns (send: bool)
      requires Valid()
      modifies this
      ensures Valid() && s == Step(old(s), Action.Request(reason))
      ensures View(word).Reasons() == old(View(word)).Reasons() + {reason}
      ensures send == View(word).enabled == old(View(word)).enabled && s.unsent == old(s.unsent) + if send then 1 else 0
    {
      var was := word;
      word := was | Bit(reason);
      RequestMatches(was, word, s, reason);
      s := Step(s, Action.Request(reason));
      send := was & ENABLED != 0;
    }

    method Enable()
      requires Valid()
      modifies this
      ensures Valid() && s == Step(old(s), Action.Enable)
      ensures View(word).enabled && View(word).Reasons() == old(View(word)).Reasons()
    {
      ghost var was := word;
      word := word | ENABLED;
      EnableMatches(was, word, s);
      s := Step(s, Action.Enable);
    }

    /** The two operations of a handler activation that nobody interrupts in between: before
        enablement it takes nothing, afterwards everything pending at once. */
    method Take() returns (taken: bv64)
      requires Valid() && s.atLoad > 0
      modifies this
      ensures Valid() && s.atLoad == old(s.atLoad) - 1 && s.atAnd == old(s.atAnd)
      ensures View(word).enabled == old(View(word)).enabled && !View(taken).enabled
      ensures View(taken).Reasons() == if View(word).enabled then old(View(word)).Reasons() else {}
      ensures View(word).Reasons() == if View(word).enabled then {} else old(View(word)).Reasons()
      ensures s.log == old(s.log) + if View(word).enabled then [Taken(View(taken).Reasons())] else []
    {
      LoadMatches(word, s);
      s := Step(s, LoadReady);
      if word & ENABLED == 0 {
        return 0;
      }
      FetchMatches(word, s);
      s := Step(s, FetchAnd);
      var was := word;
      word := word & ENABLED;
      taken := was & !ENABLED;
    }
  }
}
