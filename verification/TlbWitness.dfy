/**
Why the fast-path theorem measures reuse of a slot by `next_seq` and not by
`published_seq`: target flags are cleared before the next sequence is published,
so an abandoned request can still be the published one although its target can
no longer see that it is addressed, and the epoch hint then reports no work.
*/
module TlbWitness {
  import opened Prelude
  import opened TlbModel
  import opened TlbSafety
  import opened TlbEpoch
  import opened TlbPoll

  lemma Then(s: State, n: nat, a: Action)
    requires Reachable(s, n) && Shape(s, n) && Enabled(s, n, a)
    ensures Reachable(Step(s, n, a), n) && Shape(Step(s, n, a), n)
  {
    var run :| Runs(Init(n), n, run, s);
    StepShape(s, n, a);
    var s' := Step(s, n, a);
    assert Runs(s', n, [a][1..], s');
    assert Runs(s, n, [a], s');
    RunsConcat(Init(n), n, run, s, [a], s');
  }

  /** CPU `c` waits for CPU 0, which has not acknowledged and is not in its handler. */
  predicate Stuck(s: State, n: nat, c: nat)
    requires Shape(s, n) && 0 < c < n
  {
    && s.flushers[c].Running? && s.flushers[c].pc == Wait && s.flushers[c].k == 0
    && 0 in s.flushers[c].req.targets && s.slots[c].acked[0] != s.flushers[c].req.id
    && s.slots[c].nextSeq < U64_MAX && s.frames[0] == []
  }

  // ---- such a state exists on every machine with two CPUs -----------------------------

  /** CPU `c` prepares its first request, to CPU 0; nobody else has done anything. */
  predicate Preparing(s: State, n: nat, c: nat, pc: FlushPc, k: nat)
    requires Shape(s, n) && 0 < c < n
  {
    var id := if pc == Alloc then 0 else 1;
    && pc in {Alloc, Clear, Mark, Kind, Publish, Bump, Wait} && k <= n && (pc == Wait ==> k == 0)
    && s.flushers[c] == Running(Request(id, None, {0}), pc, k)
    && s.slots[c].nextSeq == id && s.slots[c].acked[0] == 0 && s.frames[0] == []
    && (forall t :: 0 <= t < n && pc != Wait && (pc == Bump ==> t >= k) ==> s.pending[t] == 0)
  }

  /** How many stages of `flush_remote` are left before the wait. */
  function Left(pc: FlushPc): nat {
    match pc
    case Alloc => 6
    case Clear => 5
    case Mark => 4
    case Kind => 3
    case Publish => 2
    case Bump => 1
    case _ => 0
  }

  lemma PrepareOne(s: State, n: nat, c: nat, pc: FlushPc, k: nat) returns (pc': FlushPc, k': nat)
    requires Shape(s, n) && 0 < c < n && Preparing(s, n, c, pc, k) && pc != Wait
    ensures Enabled(s, n, Advance(c)) && Shape(Step(s, n, Advance(c)), n)
    ensures Preparing(Step(s, n, Advance(c)), n, c, pc', k')
    ensures Left(pc') < Left(pc) || (pc' == pc && k < k')
  {
    StepShape(s, n, Advance(c));
    if pc in {Clear, Mark, Bump} && k < n {
      pc', k' := pc, k + 1;
    } else {
      pc' := match pc case Alloc => Clear case Clear => Mark case Mark => Kind case Kind => Publish case Publish => Bump case _ => Wait;
      k' := 0;
    }
  }

  lemma PrepareAll(s: State, n: nat, c: nat, pc: FlushPc, k: nat) returns (s': State)
    requires Reachable(s, n) && Shape(s, n) && 0 < c < n && Preparing(s, n, c, pc, k)
    ensures Reachable(s', n) && Shape(s', n) && Stuck(s', n, c)
    decreases Left(pc), n - k
  {
    if pc == Wait {
      s' := s;
    } else {
      var pc', k' := PrepareOne(s, n, c, pc, k);
      Then(s, n, Advance(c));
      s' := PrepareAll(Step(s, n, Advance(c)), n, c, pc', k');
    }
  }

  /** Whatever the number of CPUs, any but the first can come to wait for the first. */
  lemma StuckReachable(n: nat, c: nat) returns (s: State)
    requires 0 < c < n
    ensures Reachable(s, n) && Shape(s, n) && Stuck(s, n, c)
  {
    assert Runs(Init(n), n, [], Init(n));
    Then(Init(n), n, Start(c, None, {0}));
    s := PrepareAll(Step(Init(n), n, Start(c, None, {0})), n, c, Alloc, 0);
  }

  // ---- the wait is abandoned and the next request begun -----------------------------------

  /** What CPU 0's poll will look at is as it was in `s`. */
  predicate SameFor(s: State, s': State, n: nat, c: nat)
    requires Shape(s, n) && Shape(s', n) && c < n
  {
    && s'.frames == s.frames && s'.last == s.last && s'.pending == s.pending && s'.bumped == s.bumped
    && s'.slots[c].publishedSeq == s.slots[c].publishedSeq && s'.slots[c].acked == s.slots[c].acked
  }

  /** CPU `c` gives up and releases its slot. */
  lemma GivesUp(s: State, n: nat, c: nat) returns (s': State)
    requires Reachable(s, n) && Shape(s, n) && 0 < c < n && Stuck(s, n, c)
    ensures Reachable(s', n) && Shape(s', n) && SameFor(s, s', n, c)
    ensures !s'.slots[c].isActive && s'.slots[c].nextSeq < U64_MAX
  {
    Then(s, n, GiveUp(c));
    var s1 := Step(s, n, GiveUp(c));
    Then(s1, n, Advance(c));
    s' := Step(s1, n, Advance(c));
  }

  /** CPU `c` starts to prepare another request. */
  lemma Restarts(s: State, n: nat, c: nat) returns (s': State)
    requires Reachable(s, n) && Shape(s, n) && 0 < c < n && !s.slots[c].isActive && s.slots[c].nextSeq < U64_MAX
    ensures Reachable(s', n) && Shape(s', n) && SameFor(s, s', n, c) && s'.slots[c].targeted == s.slots[c].targeted
    ensures s'.flushers[c].Running? && s'.flushers[c].pc == Clear && s'.flushers[c].k == 0
  {
    Then(s, n, Start(c, None, {0}));
    var s1 := Step(s, n, Start(c, None, {0}));
    Then(s1, n, Advance(c));
    s' := Step(s1, n, Advance(c));
  }

  /** CPU `c` gives up, and in preparing its next request clears CPU 0's target flag. */
  lemma Abandon(s: State, n: nat, c: nat) returns (s': State)
    requires Reachable(s, n) && Shape(s, n) && 0 < c < n && Stuck(s, n, c)
    ensures Reachable(s', n) && Shape(s', n) && SameFor(s, s', n, c)
    ensures !s'.slots[c].targeted[0]
  {
    var s1 := GivesUp(s, n, c);
    var s2 := Restarts(s1, n, c);
    Then(s2, n, Advance(c));
    s' := Step(s2, n, Advance(c));
  }

  /** A poll by CPU 0 passes over a request that no longer names it. */
  lemma PollSkips(a: State, n: nat, c: nat)
    requires Shape(a, n) && 0 < c < n && !a.slots[c].targeted[0]
    ensures Shape(Poll(a, n, 0), n) && Poll(a, n, 0).last[0] == a.pending[0]
    ensures Poll(a, n, 0).slots[c] == a.slots[c]
    ensures Poll(a, n, 0).frames == a.frames && Poll(a, n, 0).pending == a.pending && Poll(a, n, 0).bumped == a.bumped
  {
    PollEffect(a, n, 0);
  }

  /** From every such state the system can reach one in which CPU 0 is outside its
      handler and its hint reports no work, while the request announced to it is
      still the published one and was never acknowledged. */
  lemma PublishedSeqMarksReuseTooLate(s: State, n: nat, c: nat) returns (s': State)
    requires Reachable(s, n) && Shape(s, n) && 0 < c < n && Stuck(s, n, c)
    ensures Reachable(s', n) && Shape(s', n) && s'.frames[0] == [] && s'.last[0] == s'.pending[0]
    ensures (c, s.flushers[c].req.id, 0) in s'.bumped
    ensures s'.slots[c].publishedSeq == s.flushers[c].req.id != s'.slots[c].acked[0]
  {
    assert s.slots[c].publishedSeq == s.flushers[c].req.id && (c, s.flushers[c].req.id, 0) in s.bumped by {
      ReachableHinted(s, n);
      assert SlotOk(s, n, c) && BumpsOk(s, n, c);
    }
    var a := Abandon(s, n, c);
    ReachablePoll(a, n, 0);
    PollSkips(a, n, c);
    s' := Poll(a, n, 0);
  }

  /** On every machine with more than one CPU the published sequence is the wrong measure:
      a state is reachable in which CPU 0 has nothing to do by its hint and still owes the
      published request of CPU `c`. */
  lemma PublishedSeqFailsEverywhere(n: nat, c: nat) returns (s: State, id: nat)
    requires 0 < c < n
    ensures Reachable(s, n) && Shape(s, n) && s.frames[0] == [] && s.last[0] == s.pending[0]
    ensures (c, id, 0) in s.bumped && s.slots[c].publishedSeq == id != s.slots[c].acked[0]
  {
    var w := StuckReachable(n, c);
    id := w.flushers[c].req.id;
    s := PublishedSeqMarksReuseTooLate(w, n, c);
  }
}
