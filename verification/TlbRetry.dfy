/**
A call of `flush_remote` that finds its CPU's slot in use is denied: it marks the slot and
returns, and the call in progress is to flush everything everywhere on its behalf.
*/
module TlbRetry {
  import opened Prelude
  import opened TlbModel
  import opened TlbSafety
  import opened TlbCall
  import TlbWitness

  function Denials(run: seq<Action>, c: nat): nat {
    if run == [] then 0 else (if run[0] == Denied(c) then 1 else 0) + Denials(run[1..], c)
  }

  /** How often CPU `c` finds its slot marked at the end of a call, and so retries. */
  ghost function Takes(s: State, n: nat, run: seq<Action>, c: nat): nat
    requires exists s' :: Runs(s, n, run, s')
    decreases |run|
  {
    if run == [] then 0
    else
      var s' :| Runs(s, n, run, s');
      assert Runs(Step(s, n, run[0]), n, run[1..], s');
      (if run[0] == Advance(c) && s.flushers[c].pc == TakeRetry && s.slots[c].needsRetry then 1 else 0)
      + Takes(Step(s, n, run[0]), n, run[1..], c)
  }

  function Mark(s: State, c: nat): nat
    requires c < |s.slots|
  {
    if s.slots[c].needsRetry then 1 else 0
  }

  /** What one step does to the mark of CPU `c`. */
  lemma MarkStep(s: State, n: nat, a: Action, c: nat)
    requires Shape(s, n) && Enabled(s, n, a) && c < n
    ensures Shape(Step(s, n, a), n)
    ensures Step(s, n, a).slots[c].needsRetry ==
            (a == Denied(c) || (s.slots[c].needsRetry && !(a == Advance(c) && s.flushers[c].pc == TakeRetry)))
  {
    StepShape(s, n, a);
  }

  /** Conservation over every run: no retry without a denial of its own, and no denial
      forgotten: there is a retry for it or the mark is still set. */
  lemma {:induction false} DenialsConserved(s: State, n: nat, run: seq<Action>, s': State, c: nat)
    requires Runs(s, n, run, s') && c < n
    ensures Shape(s', n)
    ensures Takes(s, n, run, c) + Mark(s', c) <= Denials(run, c) + Mark(s, c)
    ensures Denials(run, c) + Mark(s, c) > 0 ==> Takes(s, n, run, c) + Mark(s', c) > 0
    decreases |run|
  {
    if run != [] {
      MarkStep(s, n, run[0], c);
      DenialsConserved(Step(s, n, run[0]), n, run[1..], s', c);
    }
  }

  /** How the call in progress on CPU `c` goes on in a step that neither starts a call there
      nor denies one. */
  lemma CallStep(s: State, n: nat, a: Action, c: nat)
    requires Shape(s, n) && Enabled(s, n, a) && c < n && !(a.Start? && a.c == c)
    ensures Shape(Step(s, n, a), n)
    ensures s.flushers[c].Idle? ==> Step(s, n, a).flushers[c].Idle?
    ensures s.flushers[c].Running? && s.flushers[c].pc == Release ==>
              Step(s, n, a).flushers[c].Idle? || Step(s, n, a).flushers[c] == s.flushers[c]
    ensures s.flushers[c].Running? && a == GiveUp(c) ==>
              Step(s, n, a).flushers[c].Running? && Step(s, n, a).flushers[c].pc == Release
    ensures s.flushers[c].Running? && s.flushers[c].pc !in {TakeRetry, Release} && a != GiveUp(c) ==>
              Step(s, n, a).flushers[c].Running? && Step(s, n, a).flushers[c].pc != Release
    ensures s.flushers[c].Running? && s.flushers[c].pc == TakeRetry && a != Advance(c) ==>
              Step(s, n, a).flushers[c] == s.flushers[c]
  {
    StepShape(s, n, a);
  }

  /** A denial is made up for by the call it ran into if and only if that call is not yet
      past its look at the mark and does not give up.  Otherwise the mark waits for the
      next call on this CPU. */
  lemma {:induction false} LeftMarkedIff(s: State, n: nat, run: seq<Action>, s': State, c: nat)
    requires Runs(s, n, run, s') && c < n && NoStart(run, c) && Denied(c) !in run
    requires Shape(s', n) && s'.flushers[c].Idle?
    ensures s.slots[c].needsRetry ==>
              (s'.slots[c].needsRetry <==> s.flushers[c].Idle? || s.flushers[c].pc == Release || GiveUp(c) in run)
    ensures !s.slots[c].needsRetry ==> !s'.slots[c].needsRetry
    decreases |run|
  {
    if run != [] {
      var m := Step(s, n, run[0]);
      MarkStep(s, n, run[0], c);
      CallStep(s, n, run[0], c);
      LeftMarkedIff(m, n, run[1..], s', c);
      NoMoreGiveUps(m, n, run[1..], s', c);
    }
  }

  /** A call at its end does not give up any more. */
  lemma {:induction false} NoMoreGiveUps(s: State, n: nat, run: seq<Action>, s': State, c: nat)
    requires Runs(s, n, run, s') && c < n && NoStart(run, c)
    ensures s.flushers[c].Idle? || s.flushers[c].pc in {TakeRetry, Release} ==> GiveUp(c) !in run
    decreases |run|
  {
    if run != [] && (s.flushers[c].Idle? || s.flushers[c].pc in {TakeRetry, Release}) {
      CallStep(s, n, run[0], c);
      if s.flushers[c].Running? && s.flushers[c].pc == TakeRetry && run[0] == Advance(c) {
        TakeStep(s, n, run[0], c);
      }
      NoMoreGiveUps(Step(s, n, run[0]), n, run[1..], s', c);
    }
  }

  lemma TakeStep(s: State, n: nat, a: Action, c: nat)
    requires Shape(s, n) && Enabled(s, n, a) && c < n && s.flushers[c].Running?
    requires a == Advance(c) && s.flushers[c].pc == TakeRetry
    ensures Step(s, n, a).flushers[c].Running? && Step(s, n, a).flushers[c].pc == Release
  {
  }

  /** That happens: on every machine with two CPUs or more, for each of them but the first,
      a state is reachable with no call in progress there and a denial still waiting. */
  lemma DenialOutlivesCall(n: nat, c: nat) returns (s: State)
    requires 0 < c < n
    ensures Reachable(s, n) && Shape(s, n) && s.flushers[c].Idle? && s.slots[c].needsRetry
  {
    var w := TlbWitness.StuckReachable(n, c);
    CallOwnsSlot(w, n, c);
    s := Abandoned(w, n, c);
  }

  lemma CallOwnsSlot(s: State, n: nat, c: nat)
    requires Reachable(s, n) && Shape(s, n) && c < n
    ensures s.slots[c].isActive <==> s.flushers[c].Running?
  {
    ReachableSafe(s, n);
    assert SlotOk(s, n, c);
  }

  /** The waiting call on CPU `c` is run into, gives up and ends. */
  lemma Abandoned(s: State, n: nat, c: nat) returns (s': State)
    requires Reachable(s, n) && Shape(s, n) && 0 < c < n && TlbWitness.Stuck(s, n, c) && s.slots[c].isActive
    ensures Reachable(s', n) && Shape(s', n) && s'.flushers[c].Idle? && s'.slots[c].needsRetry
  {
    TlbWitness.Then(s, n, Denied(c));
    var s1 := Step(s, n, Denied(c));
    TlbWitness.Then(s1, n, GiveUp(c));
    var s2 := Step(s1, n, GiveUp(c));
    TlbWitness.Then(s2, n, Advance(c));
    s' := Step(s2, n, Advance(c));
  }

  /** A call for everything, done waiting: every other CPU has flushed its whole TLB. */
  lemma FullCall(s: State, n: nat, c: nat, mask: set<nat>, run: seq<Action>, s': State, t: nat)
    requires Reachable(s, n) && Shape(s, n) && Enabled(s, n, Start(c, None, mask)) && t in mask && t != c
    requires Runs(Step(s, n, Start(c, None, mask)), n, run, s') && NoStart(run, c) && Shape(s', n)
    requires s'.flushers[c].Running? && s'.flushers[c].pc == TakeRetry
    ensures exists k :: |s.log| <= k < |s'.log| && s'.log[k] == FlushEvent(t, None)
  {
    CallCompletes(s, n, c, None, mask, run, s');
  }

  lemma ReachableAfter(s: State, n: nat, c: nat, run: seq<Action>, m: State)
    requires Reachable(s, n) && Shape(s, n) && Enabled(s, n, Denied(c)) && Runs(Step(s, n, Denied(c)), n, run, m)
    ensures Reachable(m, n) && |s.log| <= |m.log|
  {
    LogGrows(Step(s, n, Denied(c)), n, run, m);
    ReachableThen(s, n, Denied(c), run, m);
  }

  /** A retry, which is a call for everything on all CPUs, makes up for every denial before
      it: when it is done waiting, every other CPU has flushed its whole TLB since the denial. */
  lemma RetryMakesUp(s: State, n: nat, c: nat, run: seq<Action>, m: State, all: set<nat>, more: seq<Action>,
                     s': State, t: nat)
    requires Reachable(s, n) && Shape(s, n) && Enabled(s, n, Denied(c)) && Runs(Step(s, n, Denied(c)), n, run, m)
    requires Shape(m, n) && Enabled(m, n, Start(c, None, all)) && t in all && t != c
    requires Runs(Step(m, n, Start(c, None, all)), n, more, s') && NoStart(more, c) && Shape(s', n)
    requires s'.flushers[c].Running? && s'.flushers[c].pc == TakeRetry
    ensures exists k :: |s.log| <= k < |s'.log| && s'.log[k] == FlushEvent(t, None)
  {
    ReachableAfter(s, n, c, run, m);
    FullCall(m, n, c, all, more, s', t);
  }

  lemma {:induction false} LogGrows(s: State, n: nat, run: seq<Action>, s': State)
    requires Runs(s, n, run, s')
    ensures |s.log| <= |s'.log|
    decreases |run|
  {
    if run != [] {
      LogStep(s, n, run[0]);
      LogGrows(Step(s, n, run[0]), n, run[1..], s');
    }
  }

  lemma LogStep(s: State, n: nat, a: Action)
    requires Shape(s, n) && Enabled(s, n, a)
    ensures |s.log| <= |Step(s, n, a).log|
  {
  }
}
