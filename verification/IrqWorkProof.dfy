/**
The work queue's invariant over every run, and what follows from it: where each
submitted node is, that lists stay well formed, that callbacks run once, and that
queued work always has a notification ahead of it.
*/
module IrqWorkProof {
  import opened IrqWorkModel

  ghost predicate Distinct(xs: seq<nat>) {
    forall i, j :: 0 <= i < j < |xs| ==> xs[i] != xs[j]
  }

  function After(nodes: seq<nat>, j: nat): nat {
    if j + 1 < |nodes| then nodes[j + 1] else 0
  }

  /** Following `next` from `head` visits exactly `nodes` and ends in null. */
  ghost predicate Links(next: map<nat, nat>, head: nat, nodes: seq<nat>) {
    && head == (if nodes == [] then 0 else nodes[0])
    && (forall j :: 0 <= j < |nodes| ==> nodes[j] != 0 && nodes[j] in next)
    && (forall j :: 0 <= j < |nodes| ==> next[nodes[j]] == After(nodes, j))
  }

  /** Every claimed node is in exactly one place. */
  ghost predicate Partition(s: State) {
    && Distinct(s.inList) && Distinct(s.backList)
    && (forall x :: x in s.claimed <==> x in s.producers || x in s.inList || x in s.backList || x in s.done)
    && (forall x :: x in s.producers ==> x != 0 && x !in s.inList && x !in s.backList && x !in s.done)
    && (forall x :: x in s.inList ==> x !in s.backList && x !in s.done)
    && (forall x :: x in s.backList ==> x !in s.done)
  }

  ghost predicate ProducersOk(s: State) {
    forall x :: x in s.producers && s.producers[x].Publishing? ==> x in s.next && s.next[x] == s.producers[x].head
  }

  /** The pointer through which the consumer holds its detached nodes. */
  function Held(s: State): nat {
    match s.drain
    case Take(_, head) => head
    case Store(_, head, _) => head
    case _ => s.backlog
  }

  ghost predicate DrainOk(s: State) {
    && (s.isRunning <==> !(s.drain.Off? || s.drain.Accepted? || s.drain.Peek? || s.drain.Ring?))
    && (!s.drain.Call? ==> Links(s.next, Held(s), s.backList))
    && match s.drain
       case Take(_, _) => s.backList != []
       case Store(_, _, rest) => s.backList != [] && rest == After(s.backList, 0)
       case Call(_, head) => s.backList != [] && s.backList[0] == head && Links(s.next, s.backlog, s.backList[1..])
       case Detach(_) => s.backList == []
       case Clear(has) => has == (s.backList != [])
       case Peek(has) => has == (s.backList != [])
       case _ => true
  }

  ghost predicate Queued(s: State) {
    s.inList != [] || s.backList != []
  }

  ghost predicate BellOk(s: State) {
    && (s.drain.Off? && Queued(s) ==> s.doorbell || s.ringing > 0)
    && (s.drain.Ring? && Queued(s) ==> s.drain.again || s.doorbell || s.ringing > 0)
  }

  ghost predicate RunsOk(s: State) {
    && (forall i, j :: 0 <= i < j < |s.runs| ==> s.runs[i] != s.runs[j])
    && (forall r :: r in s.runs ==> r.1 < Life(s, r.0) || (r.1 == Life(s, r.0) && r.0 in s.done))
  }

  ghost predicate Ok(s: State) {
    && Partition(s) && ProducersOk(s) && Links(s.next, s.incoming, s.inList) && DrainOk(s) && BellOk(s) && RunsOk(s)
  }

  lemma LinksFrame(next: map<nat, nat>, x: nat, v: nat, head: nat, nodes: seq<nat>)
    requires Links(next, head, nodes) && x !in nodes
    ensures Links(next[x := v], head, nodes)
  {
  }

  lemma LinksTail(next: map<nat, nat>, head: nat, nodes: seq<nat>)
    requires Links(next, head, nodes) && nodes != []
    ensures Links(next, next[nodes[0]], nodes[1..])
  {
    var rest := nodes[1..];
    forall j | 0 <= j < |rest| ensures next[rest[j]] == After(rest, j) {
      assert rest[j] == nodes[j + 1];
    }
  }

  lemma LinksCons(next: map<nat, nat>, x: nat, head: nat, nodes: seq<nat>)
    requires Links(next, head, nodes) && x != 0 && x in next && next[x] == head
    ensures Links(next, x, [x] + nodes)
  {
    var all := [x] + nodes;
    forall j | 0 <= j < |all|
      ensures all[j] != 0 && all[j] in next && next[all[j]] == After(all, j)
    {
      if j > 0 { assert all[j] == nodes[j - 1]; }
    }
  }

  // ---- submissions -------------------------------------------------------------------

  lemma LinkLists(s: State, x: nat, h: nat)
    requires Partition(s) && x in s.producers && s.producers[x] == Linking(h)
    requires Links(s.next, s.incoming, s.inList) && DrainOk(s)
    ensures var s' := StepPush(s, x, false); Links(s'.next, s'.incoming, s'.inList) && DrainOk(s')
  {
    LinksFrame(s.next, x, h, s.incoming, s.inList);
    if s.drain.Call? {
      LinksFrame(s.next, x, h, s.backlog, s.backList[1..]);
    } else {
      LinksFrame(s.next, x, h, Held(s), s.backList);
    }
  }

  lemma LinkPartition(s: State, x: nat, h: nat)
    requires Ok(s) && x in s.producers && s.producers[x] == Linking(h)
    ensures var s' := StepPush(s, x, false); Partition(s') && ProducersOk(s') && BellOk(s') && RunsOk(s')
  {
  }

  /** Writing the link of a node that is in no list. */
  lemma LinkOk(s: State, x: nat, h: nat)
    requires Ok(s) && x in s.producers && s.producers[x] == Linking(h)
    ensures Ok(StepPush(s, x, false))
  {
    LinkLists(s, x, h);
    LinkPartition(s, x, h);
  }

  /** A successful CAS puts the node in front of the incoming list. */
  lemma PublishOk(s: State, x: nat)
    requires Ok(s) && x in s.producers && s.producers[x] == Publishing(s.incoming)
    ensures Ok(StepPush(s, x, false))
  {
    var s' := StepPush(s, x, false);
    LinksCons(s.next, x, s.incoming, s.inList);
    assert forall y :: y in s'.inList <==> y == x || y in s.inList;
  }

  /** The head was read, or the CAS failed and reports the head it saw. */
  lemma RetryOk(s: State, x: nat)
    requires Ok(s) && x in s.producers
    ensures Ok(s.(producers := s.producers[x := Linking(s.incoming)]))
  {
  }

  lemma PushOk(s: State, x: nat, spurious: bool)
    requires Ok(s) && x in s.producers
    ensures Ok(StepPush(s, x, spurious))
  {
    if s.producers[x].Linking? {
      LinkOk(s, x, s.producers[x].head);
    } else if s.producers[x] == Publishing(s.incoming) && !spurious {
      PublishOk(s, x);
    } else {
      RetryOk(s, x);
      assert StepPush(s, x, spurious) == s.(producers := s.producers[x := Linking(s.incoming)]);
    }
  }

  lemma ClaimOk(s: State, x: nat)
    requires Ok(s) && Enabled(s, Claim(x))
    ensures Ok(Step(s, Claim(x)))
  {
  }

  lemma RecyclePartition(s: State, x: nat)
    requires Partition(s) && Enabled(s, Recycle(x))
    ensures Partition(Step(s, Recycle(x)))
  {
  }

  /** The runs of a recycled node belong to an ended life. */
  lemma RecycleRuns(s: State, x: nat)
    requires RunsOk(s) && Enabled(s, Recycle(x))
    ensures RunsOk(Step(s, Recycle(x)))
  {
  }

  lemma RecycleOk(s: State, x: nat)
    requires Ok(s) && Enabled(s, Recycle(x))
    ensures Ok(Step(s, Recycle(x)))
  {
    RecyclePartition(s, x);
    RecycleRuns(s, x);
  }

  /** Readiness, the doorbell and interrupt entry touch no list. */
  lemma BellStepOk(s: State, a: Action)
    requires Ok(s) && Enabled(s, a) && (a.Prepare? || a.Notify? || a.Accept? || a.Reenter?)
    ensures Ok(Step(s, a))
  {
    BellFlags(s, a);
    var s' := Step(s, a);
    SameLists(s, s.(drain := s'.drain, doorbell := s'.doorbell));
  }

  lemma BellFlags(s: State, a: Action)
    requires DrainOk(s) && BellOk(s) && Enabled(s, a) && (a.Prepare? || a.Notify? || a.Accept? || a.Reenter?)
    ensures DrainOk(Step(s, a)) && BellOk(Step(s, a))
  {
  }

  lemma QueueOk(s: State, a: Action)
    requires Ok(s) && Enabled(s, a) && !a.Push? && !a.Consume?
    ensures Ok(Step(s, a))
  {
    match a
    case Claim(x) => ClaimOk(s, x);
    case Recycle(x) => RecycleOk(s, x);
    case _ => BellStepOk(s, a);
  }

  // ---- drain -------------------------------------------------------------------------

  lemma DetachLists(s: State)
    requires Ok(s) && s.drain.Detach?
    ensures var s' := StepDrain(s); Links(s'.next, s'.incoming, s'.inList) && DrainOk(s') && BellOk(s')
  {
  }

  lemma PartitionMoves(s: State, s': State)
    requires Partition(s) && s.backList == [] && s'.inList == [] && s'.backList == s.inList
    requires s'.claimed == s.claimed && s'.producers == s.producers && s'.done == s.done
    ensures Partition(s')
  {
  }

  lemma RunsKept(s: State, s': State)
    requires RunsOk(s) && s'.runs == s.runs && s'.life == s.life && s'.done == s.done
    ensures RunsOk(s')
  {
  }

  lemma DetachOk(s: State)
    requires Ok(s) && s.drain.Detach?
    ensures Ok(StepDrain(s))
  {
    DetachLists(s);
    PartitionMoves(s, StepDrain(s));
    RunsKept(s, StepDrain(s));
  }

  lemma StoreOk(s: State)
    requires Ok(s) && s.drain.Store?
    ensures Ok(StepDrain(s))
  {
    LinksTail(s.next, s.drain.head, s.backList);
  }

  /** The node handed to its callback leaves the front of the detached list. */
  lemma CallPartition(s: State)
    requires Ok(s) && s.drain.Call?
    ensures Partition(StepDrain(s)) && s.drain.head !in s.done
  {
    var s' := StepDrain(s);
    assert s.backList == [s.drain.head] + s'.backList;
    assert forall y :: y in s.backList <==> y == s.drain.head || y in s'.backList;
    assert s.drain.head !in s'.backList;
  }

  lemma CallOk(s: State)
    requires Ok(s) && s.drain.Call?
    ensures Ok(StepDrain(s))
  {
    CallPartition(s);
    assert (s.drain.head, Life(s, s.drain.head)) !in s.runs;
  }

  /** The remaining operations of `drain` only move its program counter or a flag. */
  lemma FlagOk(s: State)
    requires Ok(s) && Enabled(s, Consume) && !s.drain.Detach? && !s.drain.Store? && !s.drain.Call?
    ensures Ok(StepDrain(s))
  {
    var s' := StepDrain(s);
    if s.drain.Accepted? || s.drain.Load? || s.drain.Take? {
      LoopOk(s);
    } else {
      EndOk(s);
    }
    SameLists(s, s');
  }

  lemma LoopOk(s: State)
    requires DrainOk(s) && Enabled(s, Consume) && (s.drain.Accepted? || s.drain.Load? || s.drain.Take?)
    ensures var s' := StepDrain(s);
            s' == s.(drain := s'.drain, isRunning := s'.isRunning) && DrainOk(s') && BellOk(s')
  {
  }

  lemma EndOk(s: State)
    requires Links(s.next, s.incoming, s.inList) && DrainOk(s) && BellOk(s)
    requires s.drain.Check? || s.drain.Clear? || s.drain.Peek? || s.drain.Ring?
    ensures var s' := StepDrain(s);
            s' == s.(drain := s'.drain, isRunning := s'.isRunning, doorbell := s'.doorbell) && DrainOk(s') && BellOk(s')
  {
  }

  lemma SameLists(s: State, s': State)
    requires Ok(s) && s' == s.(drain := s'.drain, isRunning := s'.isRunning, doorbell := s'.doorbell)
    ensures Partition(s') && ProducersOk(s') && RunsOk(s')
  {
  }

  lemma ConsumeOk(s: State)
    requires Ok(s) && Enabled(s, Consume)
    ensures Ok(StepDrain(s))
  {
    if s.drain.Detach? {
      DetachOk(s);
    } else if s.drain.Store? {
      StoreOk(s);
    } else if s.drain.Call? {
      CallOk(s);
    } else {
      FlagOk(s);
    }
  }

  lemma StepOk(s: State, a: Action)
    requires Ok(s) && Enabled(s, a)
    ensures Ok(Step(s, a))
  {
    match a
    case Push(x, spurious) => PushOk(s, x, spurious);
    case Consume => ConsumeOk(s);
    case _ => QueueOk(s, a);
  }

  lemma {:induction false} RunOk(s: State, run: seq<Action>, s': State)
    requires Ok(s) && Runs(s, run, s')
    ensures Ok(s')
    decreases |run|
  {
    if run != [] {
      StepOk(s, run[0]);
      RunOk(Step(s, run[0]), run[1..], s');
    }
  }

  lemma ReachableOk(s: State)
    requires Reachable(s)
    ensures Ok(s)
  {
    var run :| Runs(Init(), run, s);
    RunOk(Init(), run, s);
  }

  // ---- the theorems --------------------------------------------------------------------

  /** In every reachable state a submitted node is in exactly one of four places. */
  lemma ExactlyOnePlace(s: State, x: nat)
    requires Reachable(s)
    ensures x in s.claimed <==> x in s.producers || x in s.inList || x in s.backList || x in s.done
    ensures x in s.producers ==> x !in s.inList && x !in s.backList && x !in s.done
    ensures x in s.inList ==> x !in s.backList && x !in s.done
    ensures x in s.backList ==> x !in s.done
  {
    ReachableOk(s);
  }

  /** Following the links from `incoming`, and from where the consumer holds its
      detached nodes, visits pairwise different nodes and ends in null, whatever
      submissions are half-way through. */
  lemma ListsWellFormed(s: State)
    requires Reachable(s)
    ensures Links(s.next, s.incoming, s.inList) && Distinct(s.inList + s.backList)
    ensures !s.drain.Call? ==> Links(s.next, Held(s), s.backList)
    ensures s.drain.Call? ==> s.backList != [] && s.drain.head == s.backList[0] && Links(s.next, s.backlog, s.backList[1..])
  {
    ReachableOk(s);
    var all := s.inList + s.backList;
    forall i, j | 0 <= i < j < |all| ensures all[i] != all[j] {
      if i < |s.inList| <= j {
        assert all[i] in s.inList && all[j] in s.backList;
      }
    }
  }

  /** No callback runs twice for one submission, and what has run belongs to an
      ended life of the node or waits for its owner. */
  lemma CallbacksRunOnce(s: State)
    requires Reachable(s)
    ensures forall i, j :: 0 <= i < j < |s.runs| ==> s.runs[i] != s.runs[j]
    ensures forall r :: r in s.runs && r.0 in s.claimed && r.0 !in s.done ==> r.1 < Life(s, r.0)
  {
    ReachableOk(s);
  }

  /** Neither a submission nor the drain accesses a node after its callback ran. */
  lemma NotTouchedAfterDispatch(s: State, a: Action)
    requires Reachable(s) && Enabled(s, a)
    ensures Touches(s, a) !! s.done
  {
    ReachableOk(s);
    if a.Consume? && (s.drain.Take? || s.drain.Call?) {
      assert s.backList[0] in s.backList;
    }
  }

  /** Queued work with no drain active and no submission about to ring has a
      notification outstanding. */
  lemma DoorbellNeverLost(s: State)
    requires Reachable(s) && s.drain.Off? && s.ringing == 0
    ensures s.inList != [] || s.backList != [] ==> s.doorbell
  {
    ReachableOk(s);
  }

  /** The drain is never stuck on a node it cannot read. */
  lemma DrainAlwaysSteps(s: State)
    requires Reachable(s) && !s.drain.Off?
    ensures Enabled(s, Consume)
  {
    ReachableOk(s);
  }
}
