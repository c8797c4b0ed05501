/**
The work queue on its real data structure: intrusive nodes linked through `next`,
a submission that pushes in front of `incoming`, and the budgeted drain loop.
*/
module IrqWorkQueue {
  import opened Prelude
  import opened IrqWorkModel

  datatype QueueError = NotReady | AlreadyQueued

  class IrqWork {
    var next: IrqWork?
    var claimed: bool

    constructor ()
      ensures next == null && !claimed
    {
      next := null;
      claimed := false;
    }
  }

  /** Node `j` of `nodes` links to node `j + 1`, the last one to null. */
  ghost predicate Chain(head: IrqWork?, nodes: seq<IrqWork>)
    reads nodes
  {
    && head == (if nodes == [] then null else nodes[0])
    && forall j {:trigger Successor(nodes, j)} :: 0 <= j < |nodes| ==> nodes[j].next == Successor(nodes, j)
  }

  ghost function Successor(nodes: seq<IrqWork>, j: nat): IrqWork? {
    if j + 1 < |nodes| then nodes[j + 1] else null
  }

  lemma TakeMore<T>(p: seq<T>, all: seq<T>, d: nat, m: nat)
    requires d + m <= |all|
    ensures all[d..][m..] == all[d + m..] && p + all[..d] + all[d..][..m] == p + all[..d + m]
  {
  }

  lemma TakeOne<T>(p: seq<T>, all: seq<T>, k: nat)
    requires k < |all|
    ensures all[k..][1..] == all[k + 1..] && p + all[..k] + [all[k..][0]] == p + all[..k + 1]
  {
  }

  lemma DropFirst<T>(a: seq<T>, b: seq<T>)
    requires a != []
    ensures (a + b)[0] == a[0] && (a + b)[1..] == a[1..] + b
  {
  }

  class LocalState {
    var incoming: IrqWork?
    var backlog: IrqWork?
    var isReady: bool
    var isRunning: bool
    var doorbell: bool
    var dispatched: seq<IrqWork>   // callbacks run, oldest first
    ghost var inList: seq<IrqWork>
    ghost var backList: seq<IrqWork>

    ghost predicate Valid()
      reads this, inList, backList
    {
      && Chain(incoming, inList) && Chain(backlog, backList)
      && (forall w :: w in inList ==> w.claimed && w !in backList)
      && (forall w :: w in backList ==> w.claimed)
    }

    constructor ()
      ensures Valid() && inList == [] && backList == [] && dispatched == []
      ensures !isReady && !isRunning && !doorbell
    {
      incoming, backlog := null, null;
      isReady, isRunning, doorbell := false, false, false;
      dispatched, inList, backList := [], [], [];
    }

    /** Submission: the two errors publish nothing, success puts the node in front
        of the incoming list and rings. */
    method Enqueue(work: IrqWork) returns (r: Result<(), QueueError>)
      requires Valid()
      modifies this`incoming, this`doorbell, this`inList, work
      ensures Valid()
      ensures r == if !isReady then Err(NotReady) else if old(work.claimed) then Err(AlreadyQueued) else Ok(())
      ensures r.Ok? ==> work.claimed && inList == [work] + old(inList) && doorbell
      ensures r.Err? ==> unchanged(this) && unchanged(work)
    {
      if !isReady {
        return Err(NotReady);
      }
      if work.claimed {
        return Err(AlreadyQueued);
      }
      Link(work);
      doorbell := true;
      return Ok(());
    }

    /** Publication of a node nobody holds, in front of the incoming list. */
    method Link(work: IrqWork)
      requires Valid() && !work.claimed
      modifies this`incoming, this`inList, work
      ensures Valid() && work.claimed && inList == [work] + old(inList)
    {
      ghost var nodes := inList;
      assert work !in nodes && work !in backList;
      work.claimed := true;
      work.next := incoming;
      incoming := work;
      inList := [work] + nodes;
      forall j | 0 <= j < |inList| ensures inList[j].next == Successor(inList, j) {
        if j > 0 {
          assert inList[j] == nodes[j - 1] && Successor(inList, j) == Successor(nodes, j - 1);
        }
      }
    }

    /** One round of the drain loop, under its re-entry guard: the consumer's own list first,
        the whole incoming list once that is empty; `false` when there is nothing left. */
    method DispatchOne() returns (more: bool)
      requires Valid() && isRunning
      modifies this`incoming, this`backlog, this`dispatched, this`inList, this`backList
      ensures Valid()
      ensures more <==> old(backList) + old(inList) != []
      ensures more ==> var all := old(backList) + old(inList);
                       dispatched == old(dispatched) + [all[0]] && backList + inList == all[1..]
      ensures !more ==> backList == inList == [] && dispatched == old(dispatched)
    {
      ghost var all := backList + inList;
      var head := backlog;
      if head == null {
        head := incoming;
        incoming := null;
        backList, inList := inList, [];
        assert backList + inList == all;
      }
      if head == null {
        return false;
      }
      DropFirst(backList, inList);
      var next := head.next;
      backlog := next;
      ghost var rest := backList[1..];
      assert next == Successor(backList, 0);
      forall j | 0 <= j < |rest| ensures rest[j].next == Successor(rest, j) {
        assert rest[j] == backList[j + 1] && Successor(rest, j) == Successor(backList, j + 1);
      }
      backList := rest;
      dispatched := dispatched + [head];
      return true;
    }

    /** The drain loop: at most `BUDGET` callbacks, oldest detached node first. */
    method DispatchBatch(ghost all: seq<IrqWork>)
      requires Valid() && isRunning && all == backList + inList
      modifies this`incoming, this`backlog, this`dispatched, this`inList, this`backList
      ensures Valid()
      ensures dispatched == old(dispatched) + all[..Min(BUDGET, |all|)]
      ensures backList + inList == all[Min(BUDGET, |all|)..]
    {
      var k := 0;
      while k < BUDGET
        invariant Valid() && k <= BUDGET && k <= |all|
        invariant dispatched == old(dispatched) + all[..k]
        invariant backList + inList == all[k..]
      {
        if k < |all| {
          TakeOne(old(dispatched), all, k);
        }
        var more := DispatchOne();
        if !more {
          break;
        }
        k := k + 1;
      }
    }

    /** One drain: it dispatches the detached nodes first, then the incoming ones,
        at most `BUDGET` of them, keeps the rest in order, and rings again exactly
        when something is left. */
    method Drain(ghost all: seq<IrqWork>)
      requires Valid() && all == backList + inList
      modifies this`incoming, this`backlog, this`isRunning, this`doorbell, this`dispatched, this`inList, this`backList
      ensures Valid()
      ensures !isReady || old(isRunning) ==> unchanged(this)
      ensures isReady && !old(isRunning) ==>
                && dispatched == old(dispatched) + all[..Min(BUDGET, |all|)]
                && backList + inList == all[Min(BUDGET, |all|)..]
                && (doorbell <==> old(doorbell) || |all| > BUDGET)
                && !isRunning
    {
      if !isReady || isRunning {
        return;
      }
      isRunning := true;
      DispatchBatch(all);
      var hasBacklog := backlog != null;
      isRunning := false;
      if hasBacklog || incoming != null {
        doorbell := true;
      }
    }

    /** The interrupt controller keeps delivering while the doorbell is pending.
        With no new submissions, `n` queued nodes take exactly `n / 64` rounded up
        drains, all of which but the last ring again. */
    method Serve(ghost all: seq<IrqWork>) returns (drains: nat)
      requires Valid() && isReady && !isRunning && all == backList + inList
      requires doorbell <==> all != []
      modifies this`incoming, this`backlog, this`isRunning, this`doorbell, this`dispatched, this`inList, this`backList
      ensures Valid() && !doorbell && backList + inList == []
      ensures dispatched == old(dispatched) + all
      ensures drains == Rounds(|all|)
    {
      drains := 0;
      ghost var d, was := 0, dispatched;
      while doorbell
        invariant Valid() && isReady && !isRunning && d <= |all|
        invariant doorbell <==> d < |all|
        invariant backList + inList == all[d..] && dispatched == was + all[..d]
        invariant drains + Rounds(|all| - d) == Rounds(|all|)
        decreases |all| - d
      {
        ghost var m := Min(BUDGET, |all| - d);
        RoundsStep(|all| - d);
        ServeOnce(was, all, d, m);
        d := d + m;
        drains := drains + 1;
      }
      assert all[..d] == all && all[d..] == [];
    }

    /** One delivery of a pending doorbell, with `d` of the nodes `all` dispatched so far. */
    method ServeOnce(ghost was: seq<IrqWork>, ghost all: seq<IrqWork>, ghost d: nat, ghost m: nat)
      requires Valid() && isReady && !isRunning && d < |all| && m == Min(BUDGET, |all| - d)
      requires backList + inList == all[d..] && dispatched == was + all[..d]
      modifies this`incoming, this`backlog, this`isRunning, this`doorbell, this`dispatched, this`inList, this`backList
      ensures Valid() && isReady && !isRunning && (doorbell <==> d + m < |all|)
      ensures backList + inList == all[d + m..] && dispatched == was + all[..d + m]
    {
      TakeMore(was, all, d, m);
      doorbell := false;
      Drain(all[d..]);
    }
  }
}
