/**
`flush_remote` seen by its caller: what one call gets done, said of the arguments of the
call, and whom it disturbs.
*/
module TlbCall {
  import opened TlbModel
  import opened TlbSafety
  import opened TlbPoll

  // ---- what a call gets done -----------------------------------------------------------------

  /** CPU `c` works on a call for `range` and `mask` that began when the log had `base` flushes. */
  predicate Serves(s: State, n: nat, c: nat, range: Range, mask: set<nat>, base: nat)
    requires Shape(s, n) && c < n
  {
    && |s.log| >= base
    && (s.flushers[c].Running? ==>
          var f := s.flushers[c];
          && f.req.range == range
          && (forall t :: t in mask && t != c ==> t in f.req.targets)
          && (forall t :: t in f.req.targets ==> t in mask && t != c)
          && (f.pc in {Bump, Wait, TakeRetry} ==> s.publishedAt[c] >= base))
  }

  lemma ServesStep(s: State, n: nat, a: Action, c: nat, range: Range, mask: set<nat>, base: nat)
    requires Shape(s, n) && Enabled(s, n, a) && c < n && Serves(s, n, c, range, mask, base)
    requires !(a.Start? && a.c == c)
    ensures Shape(Step(s, n, a), n) && Serves(Step(s, n, a), n, c, range, mask, base)
  {
    StepShape(s, n, a);
    match a
    case Advance(d) => ServesAdvance(s, n, d, c, range, mask, base);
    case _ =>
  }

  lemma ServesAdvance(s: State, n: nat, d: nat, c: nat, range: Range, mask: set<nat>, base: nat)
    requires Shape(s, n) && Enabled(s, n, Advance(d)) && c < n && Serves(s, n, c, range, mask, base)
    ensures Shape(AdvanceFlush(s, n, d), n) && Serves(AdvanceFlush(s, n, d), n, c, range, mask, base)
  {
    AdvanceShape(s, n, d);
  }

  ghost predicate NoStart(run: seq<Action>, c: nat) {
    forall a :: a in run ==> !(a.Start? && a.c == c)
  }

  lemma {:induction false} ServesRun(s: State, n: nat, run: seq<Action>, s': State, c: nat,
                                     range: Range, mask: set<nat>, base: nat)
    requires Runs(s, n, run, s') && NoStart(run, c) && c < n && Serves(s, n, c, range, mask, base)
    ensures Shape(s', n) && Serves(s', n, c, range, mask, base)
    decreases |run|
  {
    if run != [] {
      ServesStep(s, n, run[0], c, range, mask, base);
      ServesRun(Step(s, n, run[0]), n, run[1..], s', c, range, mask, base);
    }
  }

  /** A call of `flush_remote(range, mask)` on CPU `c`, in any interleaving: when it is done
      waiting, every CPU of `mask` but `c` has flushed a range that covers `range` since the
      request was published, which was after the call began. */
  lemma CallCompletes(s: State, n: nat, c: nat, range: Range, mask: set<nat>, run: seq<Action>, s': State)
    requires Reachable(s, n) && Shape(s, n) && Enabled(s, n, Start(c, range, mask))
    requires Runs(Step(s, n, Start(c, range, mask)), n, run, s') && NoStart(run, c) && Shape(s', n)
    requires s'.flushers[c].Running? && s'.flushers[c].pc == TakeRetry
    ensures s'.publishedAt[c] >= |s.log|
    ensures forall t :: t in mask && t != c ==>
              exists k :: s'.publishedAt[c] <= k < |s'.log| && s'.log[k].cpu == t
                          && (s'.log[k].range.None? || s'.log[k].range == range)
  {
    var s1 := Step(s, n, Start(c, range, mask));
    StepShape(s, n, Start(c, range, mask));
    assert Serves(s1, n, c, range, mask, |s.log|);
    ServesRun(s1, n, run, s', c, range, mask, |s.log|);
    ReachableThen(s, n, Start(c, range, mask), run, s');
    ShootdownComplete(s', n, c);
    forall t | t in mask && t != c
      ensures exists k :: s'.publishedAt[c] <= k < |s'.log| && s'.log[k].cpu == t
                          && (s'.log[k].range.None? || s'.log[k].range == range)
    {
      assert t in s'.flushers[c].req.targets;
      var k :| s'.publishedAt[c] <= k < |s'.log| && s'.log[k].cpu == t && Covers(s'.log[k].range, s'.flushers[c].req.range);
    }
  }

  lemma ReachableThen(s: State, n: nat, a: Action, run: seq<Action>, s': State)
    requires Reachable(s, n) && Shape(s, n) && Enabled(s, n, a) && Runs(Step(s, n, a), n, run, s')
    ensures Reachable(s', n)
  {
    var before :| Runs(Init(n), n, before, s);
    var after := [a] + run;
    assert after[1..] == run;
    assert Runs(s, n, after, s');
    RunsConcat(Init(n), n, before, s, after, s');
  }

  /** The requests CPU `c` announced between `s` and `s'` went to members of `mask` only. */
  ghost predicate OnlyTo(s: State, s': State, c: nat, mask: set<nat>) {
    forall id, t :: (c, id, t) in s'.bumped && (c, id, t) !in s.bumped ==> t in mask && t != c
  }

  lemma {:induction false} BumpsRun(s0: State, s: State, n: nat, run: seq<Action>, s': State, c: nat,
                                    range: Range, mask: set<nat>, base: nat)
    requires Runs(s, n, run, s') && NoStart(run, c) && c < n && Serves(s, n, c, range, mask, base) && OnlyTo(s0, s, c, mask)
    ensures OnlyTo(s0, s', c, mask)
    decreases |run|
  {
    if run != [] {
      var m := Step(s, n, run[0]);
      ServesStep(s, n, run[0], c, range, mask, base);
      BumpsStep(s, n, run[0], c, mask);
      assert OnlyTo(s0, m, c, mask);
      BumpsRun(s0, m, n, run[1..], s', c, range, mask, base);
    }
  }

  lemma BumpsStep(s: State, n: nat, a: Action, c: nat, mask: set<nat>)
    requires Shape(s, n) && Enabled(s, n, a) && c < n
    requires s.flushers[c].Running? ==> forall t :: t in s.flushers[c].req.targets ==> t in mask && t != c
    ensures OnlyTo(s, Step(s, n, a), c, mask)
  {
  }

  /** A call disturbs nobody outside its mask, and never its own CPU. */
  lemma CallDisturbsOnly(s: State, n: nat, c: nat, range: Range, mask: set<nat>, run: seq<Action>, s': State)
    requires Shape(s, n) && Enabled(s, n, Start(c, range, mask))
    requires Runs(Step(s, n, Start(c, range, mask)), n, run, s') && NoStart(run, c)
    ensures forall id, t :: (c, id, t) in s'.bumped && (c, id, t) !in s.bumped ==> t in mask && t != c
  {
    var s1 := Step(s, n, Start(c, range, mask));
    StepShape(s, n, Start(c, range, mask));
    assert Serves(s1, n, c, range, mask, |s.log|);
    BumpsRun(s, s1, n, run, s', c, range, mask, |s.log|);
  }
}
