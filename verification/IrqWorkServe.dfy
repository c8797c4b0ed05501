/**
What the transition system does when it is left alone: a drain has the effect of the drain
loop, a submission that of the submission method, and the doorbell brings the queue to
rest in the fewest possible drains.
*/
module IrqWorkServe {
  import opened IrqWorkModel
  import opened IrqWorkProof

  /** The nodes waiting for their callback, in the order they will get it. */
  function Waiting(s: State): seq<nat> {
    s.backList + s.inList
  }

  /** The callbacks of `nodes`. */
  function Calls(s: State, nodes: seq<nat>): seq<(nat, nat)> {
    if nodes == [] then [] else Calls(s, nodes[..|nodes| - 1]) + [(nodes[|nodes| - 1], Life(s, nodes[|nodes| - 1]))]
  }

  lemma {:induction false} CallsConcat(s: State, a: seq<nat>, b: seq<nat>)
    ensures Calls(s, a + b) == Calls(s, a) + Calls(s, b)
    decreases b
  {
    if b == [] {
      assert a + b == a;
    } else {
      assert (a + b)[..|a + b| - 1] == a + b[..|b| - 1];
      CallsConcat(s, a, b[..|b| - 1]);
    }
  }

  /** The calls of the first `m` nodes, of which the first `d` come first. */
  lemma CallsFrom(s: State, all: seq<nat>, d: nat, m: nat)
    requires d <= m <= |all|
    ensures all[d..][m - d..] == all[m..]
    ensures Calls(s, all[..d]) + Calls(s, all[d..][..m - d]) == Calls(s, all[..m])
  {
    assert all[..d] + all[d..][..m - d] == all[..m];
    CallsConcat(s, all[..d], all[d..][..m - d]);
  }

  lemma CallsOne(s: State, x: nat)
    ensures Calls(s, [x]) == [(x, Life(s, x))]
  {
    assert Calls(s, [x][..0]) == [];
  }

  lemma {:induction false} CallsKept(s: State, s': State, nodes: seq<nat>)
    requires s'.life == s.life
    ensures Calls(s', nodes) == Calls(s, nodes)
  {
    if nodes != [] {
      CallsKept(s, s', nodes[..|nodes| - 1]);
    }
  }

  /** `s'` follows from `s` by operations of the drain alone. */
  ghost predicate Drained(s: State, run: seq<Action>, s': State) {
    Runs(s, run, s') && forall a :: a in run ==> a == Consume
  }

  ghost predicate Quietly(s: State, s': State) {
    exists run :: Drained(s, run, s')
  }

  lemma {:induction false} RunsConcat(s: State, run: seq<Action>, m: State, more: seq<Action>, s': State)
    requires Runs(s, run, m) && Runs(m, more, s')
    ensures Runs(s, run + more, s')
    decreases run
  {
    if run == [] {
      assert run + more == more;
    } else {
      assert (run + more)[1..] == run[1..] + more;
      RunsConcat(Step(s, run[0]), run[1..], m, more, s');
    }
  }

  lemma QuietlyStep(s: State)
    requires Enabled(s, Consume)
    ensures Quietly(s, StepDrain(s))
  {
    var run := [Consume];
    assert Runs(StepDrain(s), run[1..], StepDrain(s));
    assert Drained(s, run, StepDrain(s));
  }

  lemma QuietlyThen(s: State, m: State, s': State)
    requires Quietly(s, m) && Quietly(m, s')
    ensures Quietly(s, s')
  {
    var run :| Drained(s, run, m);
    var more :| Drained(m, more, s');
    RunsConcat(s, run, m, more, s');
    assert Drained(s, run + more, s');
  }

  lemma QuietlyReachable(s: State, s': State)
    requires Reachable(s) && Quietly(s, s')
    ensures Reachable(s')
  {
    var run :| Runs(Init(), run, s);
    var more :| Drained(s, more, s');
    RunsConcat(Init(), run, s, more, s');
  }

  /** Exactly the first `m` waiting nodes have got their callback, in order. */
  predicate Served(s: State, s': State, m: nat) {
    && m <= |Waiting(s)| && Waiting(s') == Waiting(s)[m..]
    && s'.runs == s.runs + Calls(s, Waiting(s)[..m]) && s'.life == s.life
  }

  lemma ServedThen(s: State, t: State, s': State, d: nat, m: nat, k: nat)
    requires Served(s, t, d) && Served(t, s', m) && k == d + m
    ensures Served(s, s', k)
  {
    var all := Waiting(s);
    assert Waiting(t) == all[d..];
    CallsKept(s, t, all[d..][..m]);
    CallsFrom(s, all, d, k);
    Joined(s.runs, Calls(s, all[..d]), Calls(s, all[d..][..m]));
  }

  lemma Joined<T>(a: seq<T>, b: seq<T>, c: seq<T>)
    ensures a + b + c == a + (b + c)
  {
  }

  lemma ServedNone(s: State, s': State)
    requires Waiting(s') == Waiting(s) && s'.runs == s.runs && s'.life == s.life
    ensures Served(s, s', 0)
  {
    assert Calls(s, Waiting(s)[..0]) == [];
  }

  /** What a drain never changes. */
  predicate Untouched(s: State, s': State) {
    && s'.next == s.next && s'.claimed == s.claimed && s'.producers == s.producers && s'.ringing == s.ringing
    && s'.isReady == s.isReady && s'.life == s.life
  }

  // ---- one callback -------------------------------------------------------------------------

  predicate Heads(head: nat, nodes: seq<nat>, next: map<nat, nat>) {
    if nodes == [] then head == 0 else head == nodes[0] && head != 0 && head in next
  }

  /** Outside a callback both list heads are what the lists say. */
  lemma HeadsOk(s: State)
    requires Reachable(s) && (s.drain.Load? || s.drain.Check?)
    ensures Heads(s.backlog, s.backList, s.next) && Heads(s.incoming, s.inList, s.next)
  {
    ReachableOk(s);
  }

  /** The drain gets hold of the first waiting node. */
  lemma Reaches(s: State) returns (s': State)
    requires s.drain.Load? && s.drain.k < 64 && Waiting(s) != []
    requires Heads(s.backlog, s.backList, s.next) && Heads(s.incoming, s.inList, s.next)
    ensures Quietly(s, s') && Untouched(s, s') && s'.doorbell == s.doorbell && s'.runs == s.runs
    ensures s'.backList != [] && s'.drain == Take(s.drain.k, s'.backList[0]) && s'.backList[0] in s'.next
    ensures Waiting(s') == Waiting(s)
  {
    if s.backlog == 0 {
      s' := Detaches(s);
    } else {
      QuietlyStep(s);
      s' := StepDrain(s);
    }
  }

  /** The consumer's own list is empty, so it takes the whole incoming one. */
  lemma Detaches(s: State) returns (s': State)
    requires s.drain.Load? && s.drain.k < 64 && s.backList == [] && s.backlog == 0 && s.incoming != 0
    ensures Quietly(s, s') && s' == s.(incoming := 0, inList := [], backList := s.inList, drain := Take(s.drain.k, s.incoming))
  {
    QuietlyStep(s);
    var s1 := StepDrain(s);
    QuietlyStep(s1);
    s' := StepDrain(s1);
    QuietlyThen(s, s1, s');
  }

  /** It is unlinked and its callback runs. */
  lemma Dispatches(s: State) returns (s': State)
    requires s.backList != [] && s.drain.Take? && s.drain.head == s.backList[0] && s.backList[0] in s.next
    ensures Quietly(s, s') && Untouched(s, s') && s'.doorbell == s.doorbell && s'.drain == Load(s.drain.k + 1)
    ensures s'.backList == s.backList[1..] && s'.inList == s.inList
    ensures s'.runs == s.runs + [(s.backList[0], Life(s, s.backList[0]))]
  {
    QuietlyStep(s);
    var s1 := StepDrain(s);
    QuietlyStep(s1);
    var s2 := StepDrain(s1);
    QuietlyThen(s, s1, s2);
    QuietlyStep(s2);
    s' := StepDrain(s2);
    QuietlyThen(s, s2, s');
  }

  /** One turn of the drain loop. */
  lemma Turn(s: State) returns (s': State)
    requires Reachable(s) && s.drain.Load? && s.drain.k < 64 && Waiting(s) != []
    ensures Quietly(s, s') && Untouched(s, s') && s'.doorbell == s.doorbell && s'.drain == Load(s.drain.k + 1)
    ensures Served(s, s', 1)
  {
    HeadsOk(s);
    var m := Reaches(s);
    s' := Dispatches(m);
    QuietlyThen(s, m, s');
    assert Waiting(s') == Waiting(m)[1..];
    assert Waiting(s)[..1] == [Waiting(m)[0]];
    CallsOne(s, Waiting(m)[0]);
  }

  // ---- one drain ----------------------------------------------------------------------------

  /** The rest of a drain that has room for `room` more callbacks. */
  lemma {:induction false} Turns(s: State, room: nat) returns (s': State)
    requires Reachable(s) && s.drain.Load? && s.drain.k + room == 64
    ensures Quietly(s, s') && Untouched(s, s') && s'.doorbell == s.doorbell && s'.drain == Check
    ensures Served(s, s', Min(room, |Waiting(s)|))
    decreases room
  {
    if room == 0 {
      QuietlyStep(s);
      s' := StepDrain(s);
      ServedNone(s, s');
    } else if Waiting(s) == [] {
      s' := RunsDry(s);
      ServedNone(s, s');
    } else {
      var t := Turn(s);
      QuietlyReachable(s, t);
      s' := Turns(t, room - 1);
      QuietlyThen(s, t, s');
      ServedThen(s, t, s', 1, Min(room - 1, |Waiting(t)|), Min(room, |Waiting(s)|));
    }
  }

  /** Both lists are empty: the loop ends early. */
  lemma RunsDry(s: State) returns (s': State)
    requires Reachable(s) && s.drain.Load? && s.drain.k < 64 && Waiting(s) == []
    ensures Quietly(s, s') && Untouched(s, s') && s'.doorbell == s.doorbell && s'.drain == Check
    ensures Waiting(s') == [] && s'.runs == s.runs
  {
    HeadsOk(s);
    QuietlyStep(s);
    var s1 := StepDrain(s);
    QuietlyStep(s1);
    s' := StepDrain(s1);
    QuietlyThen(s, s1, s');
  }

  /** The end of a drain: it rings again exactly when a node is left. */
  lemma Finishes(s: State) returns (s': State)
    requires Reachable(s) && s.drain == Check
    ensures Quietly(s, s') && Untouched(s, s') && s'.drain == Off && !s'.isRunning
    ensures Waiting(s') == Waiting(s) && s'.runs == s.runs
    ensures s'.doorbell <==> s.doorbell || Waiting(s) != []
  {
    HeadsOk(s);
    var m := Clears(s);
    s' := Rings(m);
    QuietlyThen(s, m, s');
  }

  /** The drain looks at the incoming list and rings if it or the note says so. */
  lemma Rings(s: State) returns (s': State)
    requires s.drain.Peek?
    ensures Quietly(s, s') && s' == s.(drain := Off, doorbell := s.doorbell || s.drain.hasBacklog || s.incoming != 0)
  {
    QuietlyStep(s);
    var s1 := StepDrain(s);
    QuietlyStep(s1);
    s' := StepDrain(s1);
    QuietlyThen(s, s1, s');
  }

  /** The drain notes whether detached nodes are left and clears `is_running`. */
  lemma Clears(s: State) returns (s': State)
    requires s.drain == Check
    ensures Quietly(s, s') && s' == s.(drain := Peek(s.backlog != 0), isRunning := false)
  {
    QuietlyStep(s);
    var s1 := StepDrain(s);
    QuietlyStep(s1);
    s' := StepDrain(s1);
    QuietlyThen(s, s1, s');
  }

  lemma AcceptReachable(s: State)
    requires Reachable(s) && Enabled(s, Accept)
    ensures Reachable(Step(s, Accept)) && !s.isRunning
  {
    ReachableOk(s);
    var run :| Runs(Init(), run, s);
    var a := [Accept];
    assert Runs(Step(s, Accept), a[1..], Step(s, Accept));
    RunsConcat(Init(), run, s, a, Step(s, Accept));
  }

  /** `s'` is where an uninterrupted drain that starts in `s` ends. */
  ghost predicate DrainFrom(s: State, s': State) {
    Enabled(s, Accept) && s'.drain.Off? && Quietly(Step(s, Accept), s')
  }

  /** An uninterrupted drain ends, and its whole run of atomic steps does what the drain
      loop does: the first 64 waiting nodes get their callback, in order, the rest stay
      in order, and the doorbell is left ringing exactly when there is a rest. */
  lemma UninterruptedDrain(s: State) returns (s': State)
    requires Reachable(s) && s.isReady && s.drain.Off?
    ensures DrainFrom(s, s') && Reachable(s') && Untouched(s, s') && !s'.isRunning
    ensures Served(s, s', Min(BUDGET, |Waiting(s)|)) && (s'.doorbell <==> |Waiting(s)| > BUDGET)
  {
    var s0 := Step(s, Accept);
    AcceptReachable(s);
    var s1 := StepDrain(s0);
    QuietlyStep(s0);
    QuietlyReachable(s0, s1);
    var s2 := Turns(s1, 64);
    QuietlyThen(s0, s1, s2);
    QuietlyReachable(s0, s2);
    s' := Finishes(s2);
    QuietlyThen(s0, s2, s');
    QuietlyReachable(s0, s');
    var m := Min(BUDGET, |Waiting(s)|);
    ServedNone(s, s1);
    ServedThen(s, s1, s2, 0, m, m);
    ServedNone(s2, s');
    ServedThen(s, s2, s', m, 0, m);
  }

  // ---- to rest ------------------------------------------------------------------------------

  /** `n` uninterrupted drains, each but the first delivered by the one before. */
  ghost predicate Drains(s: State, n: nat, s': State)
    decreases n
  {
    if n == 0 then s' == s
    else exists m :: DrainFrom(s, m) && (n > 1 ==> m.doorbell) && Drains(m, n - 1, s')
  }

  /** With no new submissions, `n` waiting nodes are served in order, in exactly
      `n / 64` rounded up drains, after which the doorbell is silent. */
  lemma {:induction false} ServedInRounds(s: State) returns (s': State)
    requires Reachable(s) && s.isReady && s.drain.Off? && (s.doorbell <==> Waiting(s) != [])
    ensures Drains(s, Rounds(|Waiting(s)|), s')
    ensures Served(s, s', |Waiting(s)|) && !s'.doorbell
    decreases |Waiting(s)|
  {
    var all := Waiting(s);
    if all == [] {
      s' := s;
      ServedNone(s, s');
    } else {
      var m := Min(64, |all|);
      RoundsStep(|all|);
      var t := UninterruptedDrain(s);
      s' := ServedInRounds(t);
      ServedThen(s, t, s', m, |all| - m, |all|);
    }
  }

  // ---- submissions ----------------------------------------------------------------------------

  /** `s'` follows from `s` by operations of the submission of node `x` alone, without a
      spurious failure of its compare-exchange. */
  ghost predicate Pushed(s: State, x: nat, s': State) {
    exists run :: Runs(s, run, s') && forall a :: a in run ==> a == Push(x, false)
  }

  lemma PushedStep(s: State, x: nat)
    requires x in s.producers
    ensures Pushed(s, x, StepPush(s, x, false))
  {
    var run := [Push(x, false)];
    assert Runs(StepPush(s, x, false), run[1..], StepPush(s, x, false));
    assert Runs(s, run, StepPush(s, x, false));
  }

  lemma PushedThen(s: State, x: nat, m: State, s': State)
    requires Pushed(s, x, m) && Pushed(m, x, s')
    ensures Pushed(s, x, s')
  {
    var run :| Runs(s, run, m) && forall a :: a in run ==> a == Push(x, false);
    var more :| Runs(m, more, s') && forall a :: a in more ==> a == Push(x, false);
    RunsConcat(s, run, m, more, s');
  }

  /** Node `x` is in front of the incoming list and its submission about to ring; nothing
      else differs but the node's link. */
  predicate Published(s: State, x: nat, s': State) {
    && s' == s.(next := s'.next, producers := s.producers - {x}, incoming := x,
                inList := [x] + s.inList, ringing := s.ringing + 1)
    && s'.next.Keys == s.next.Keys + {x} && s'.next[x] == s.incoming
    && forall y :: y in s.next && y != x ==> s'.next[y] == s.next[y]
  }

  /** A submission that has just read the head links its node and publishes it. */
  lemma LinkPublishes(s: State, x: nat) returns (s': State)
    requires x in s.producers && s.producers[x] == Linking(s.incoming)
    ensures Pushed(s, x, s') && Published(s, x, s')
  {
    PushedStep(s, x);
    var m := StepPush(s, x, false);
    PushedStep(m, x);
    s' := StepPush(m, x, false);
    PushedThen(s, x, m, s');
    assert m.producers - {x} == s.producers - {x};
  }

  /** The same from a state that differs only in how far this submission is. */
  lemma PublishedFrom(s: State, m: State, x: nat, s': State)
    requires Published(m, x, s') && x in s.producers && x in m.producers
    requires m == s.(next := m.next, producers := s.producers[x := m.producers[x]])
    requires m.next == s.next || (x in m.next && m.next == s.next[x := m.next[x]])
    ensures Published(s, x, s')
  {
    assert m.producers - {x} == s.producers - {x};
  }

  /** Reading the head, or a failed compare-exchange that reports it. */
  lemma HeadSeen(s: State, m: State, x: nat) returns (s': State)
    requires x in s.producers && Pushed(s, x, m)
    requires m == s.(next := m.next, producers := s.producers[x := Linking(s.incoming)])
    requires m.next == s.next || (x in m.next && m.next == s.next[x := m.next[x]])
    ensures Pushed(s, x, s') && Published(s, x, s')
  {
    s' := LinkPublishes(m, x);
    PushedThen(s, x, m, s');
    PublishedFrom(s, m, x, s');
  }

  /** Wherever a submission stands, left alone it puts its node in front of the incoming list. */
  lemma SubmissionPublishes(s: State, x: nat) returns (s': State)
    requires Reachable(s) && x in s.producers
    ensures Pushed(s, x, s') && Published(s, x, s')
  {
    if s.producers[x] == Linking(s.incoming) {
      s' := LinkPublishes(s, x);
    } else if s.producers[x].Linking? {
      s' := StaleLinkPublishes(s, x);
    } else if s.producers[x] == Publishing(s.incoming) {
      PublishingLinked(s, x);
      PushedStep(s, x);
      s' := StepPush(s, x, false);
    } else {
      PushedStep(s, x);
      s' := HeadSeen(s, StepPush(s, x, false), x);
    }
  }

  /** A link to an old head: the compare-exchange fails once. */
  lemma StaleLinkPublishes(s: State, x: nat) returns (s': State)
    requires x in s.producers && s.producers[x].Linking? && s.producers[x].head != s.incoming
    ensures Pushed(s, x, s') && Published(s, x, s')
  {
    PushedStep(s, x);
    var m := StepPush(s, x, false);
    PushedStep(m, x);
    var f := StepPush(m, x, false);
    PushedThen(s, x, m, f);
    assert m.producers[x := Linking(s.incoming)] == s.producers[x := Linking(s.incoming)];
    s' := HeadSeen(s, f, x);
  }

  /** A submission nobody interrupts, from the claim to the notification, has the effect of
      `Enqueue`: an unclaimed node of a ready CPU ends up claimed and in front of the
      incoming list, with the doorbell ringing. */
  lemma UninterruptedSubmission(s: State, x: nat) returns (s': State)
    requires Reachable(s) && s.isReady && x != 0 && x !in s.claimed
    ensures exists run :: Runs(s, run, s') && forall a :: a in run ==> a in {Claim(x), Push(x, false), Notify}
    ensures s'.inList == [x] + s.inList && s'.backList == s.backList && s'.incoming == x && s'.doorbell
    ensures s'.claimed == s.claimed + {x} && s'.producers == s.producers && s'.ringing == s.ringing
    ensures x in s'.next && s'.next[x] == s.incoming && s'.runs == s.runs && s'.done == s.done
  {
    var m := Step(s, Claim(x));
    ClaimReachable(s, x);
    var p := SubmissionPublishes(m, x);
    s' := Step(p, Notify);
    var push :| Runs(m, push, p) && forall a :: a in push ==> a == Push(x, false);
    var first, last := [Claim(x)], [Notify];
    assert Runs(m, first[1..], m) && Runs(s', last[1..], s');
    assert Runs(s, first, m) && Runs(p, last, s');
    RunsConcat(s, first, m, push, p);
    RunsConcat(s, first + push, p, last, s');
    UnclaimedIdle(s, x);
    assert m.producers - {x} == s.producers;
  }

  lemma PublishingLinked(s: State, x: nat)
    requires Reachable(s) && x in s.producers && s.producers[x].Publishing?
    ensures x in s.next && s.next[x] == s.producers[x].head
  {
    ReachableOk(s);
  }

  lemma UnclaimedIdle(s: State, x: nat)
    requires Reachable(s) && x !in s.claimed
    ensures x !in s.producers
  {
    ReachableOk(s);
  }

  lemma ClaimReachable(s: State, x: nat)
    requires Reachable(s) && Enabled(s, Claim(x))
    ensures Reachable(Step(s, Claim(x)))
  {
    var run :| Runs(Init(), run, s);
    var a := [Claim(x)];
    assert Runs(Step(s, Claim(x)), a[1..], Step(s, Claim(x)));
    RunsConcat(Init(), run, s, a, Step(s, Claim(x)));
  }
}
