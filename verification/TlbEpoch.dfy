/**
The pending-epoch hint never hides work, and polling inside the wait loop breaks
every cycle of CPUs waiting for each other.
*/
module TlbEpoch {
  import opened Prelude
  import opened TlbModel
  import opened TlbSafety

  /** The newest bump of slot `i` for CPU `t` belongs to the request the slot still holds. */
  predicate Current(s: State, n: nat, i: nat, t: nat)
    requires Shape(s, n) && i < n && t < n
  {
    s.bumps[i][t].id == s.slots[i].nextSeq != 0
  }

  predicate NoScan(fs: seq<Frame>) {
    forall j :: 0 <= j < |fs| ==> fs[j].pc == Compare
  }

  /** Activation `g` is the outermost one that decided to scan. */
  predicate Outermost(fs: seq<Frame>, g: nat) {
    g < |fs| && fs[g].pc != Compare && forall j :: 0 <= j < g ==> fs[j].pc == Compare
  }

  /** Every activation that has read slot `i`'s sequence read `q`. */
  predicate AllRead(fs: seq<Frame>, i: nat, q: nat) {
    forall j :: 0 <= j < |fs| && fs[j].i == i && fs[j].pc !in {Compare, LoadSeq} ==> fs[j].q == q
  }

  /** A scan new enough for an epoch reads request `id` of slot `i`, and has passed the
      slot only if that request is acknowledged. */
  ghost predicate ScansFor(fs: seq<Frame>, i: nat, id: nat, epoch: nat, acked: nat) {
    forall g: nat :: Outermost(fs, g) && fs[g].epoch >= epoch ==> AllRead(fs, i, id) && (fs[g].i > i ==> acked == id)
  }

  /** The bump of slot `i` for CPU `t`, if still current, is acknowledged by the
      time a scan that started after it is over. */
  ghost predicate HintOk(s: State, n: nat, i: nat, t: nat)
    requires Shape(s, n) && i < n && t < n
  {
    var b := s.bumps[i][t];
    var fs := s.frames[t];
    && b.id <= s.slots[i].publishedSeq
    && b.epoch <= s.pending[t]
    && (Current(s, n, i, t) ==>
          && Stable(s.slots[i])
          && t in s.published[i].targets
          && (NoScan(fs) && s.last[t] >= b.epoch ==> s.slots[i].acked[t] == b.id)
          && ScansFor(fs, i, b.id, b.epoch, s.slots[i].acked[t]))
  }

  predicate EpochsOk(s: State, n: nat, t: nat)
    requires Shape(s, n) && t < n
  {
    && s.last[t] <= s.pending[t]
    && forall j :: 0 <= j < |s.frames[t]| ==> s.frames[t][j].epoch <= s.pending[t]
  }

  /** `flush_remote` has bumped the targets it has passed. */
  predicate BumpsOk(s: State, n: nat, c: nat)
    requires Shape(s, n) && c < n
  {
    var f := s.flushers[c];
    && (f.Running? && f.pc == Bump ==>
          forall t :: t in f.req.targets && t < f.k && t < n ==> s.bumps[c][t].id == f.req.id && (c, f.req.id, t) in s.bumped)
    && (f.Running? && f.pc == Wait ==>
          forall t :: t in f.req.targets && t < n ==> s.bumps[c][t].id == f.req.id && (c, f.req.id, t) in s.bumped)
  }

  /** Older bumps of a pair belong to older requests. */
  predicate BumpedOk(s: State, n: nat)
    requires Shape(s, n)
  {
    forall x :: x in s.bumped ==> x.0 < n && x.2 < n && 0 < x.1 <= s.bumps[x.0][x.2].id
  }

  ghost predicate Hinted(s: State, n: nat) {
    && Safe(s, n)
    && BumpedOk(s, n)
    && (forall t :: 0 <= t < n ==> EpochsOk(s, n, t))
    && (forall c :: 0 <= c < n ==> BumpsOk(s, n, c))
    && (forall i, t :: 0 <= i < n && 0 <= t < n ==> HintOk(s, n, i, t))
  }

  // ---- handler stacks ---------------------------------------------------------

  lemma PushKeepsOutermost(fs: seq<Frame>, f: Frame, g: nat)
    requires f.pc == Compare && Outermost(fs + [f], g)
    ensures Outermost(fs, g) && (fs + [f])[g] == fs[g]
  {
    assert (fs + [f])[g] == if g < |fs| then fs[g] else f;
    forall j | 0 <= j < g ensures fs[j].pc == Compare {
      assert (fs + [f])[j] == fs[j];
    }
  }

  // ---- steps ------------------------------------------------------------------

  /** Nothing about the pair `(i, t)` changed. */
  predicate SamePair(s: State, s': State, n: nat, i: nat, t: nat)
    requires Shape(s, n) && Shape(s', n) && i < n && t < n
  {
    && s'.bumps[i][t] == s.bumps[i][t] && s'.frames[t] == s.frames[t]
    && s'.pending[t] >= s.pending[t] && s'.last[t] == s.last[t]
    && s'.slots[i].acked[t] == s.slots[i].acked[t]
    && s'.slots[i].publishedSeq >= s.slots[i].publishedSeq
    && (|| !Current(s', n, i, t)
        || (s'.slots[i].nextSeq == s.slots[i].nextSeq && s'.slots[i].publishedSeq == s.slots[i].publishedSeq
            && s'.published[i] == s.published[i]))
  }

  lemma PairKept(s: State, s': State, n: nat, i: nat, t: nat)
    requires Shape(s, n) && Shape(s', n) && i < n && t < n && HintOk(s, n, i, t) && SamePair(s, s', n, i, t)
    ensures HintOk(s', n, i, t)
  {
  }

  /** CPU `c`'s next operation bumps the epoch of `t` for its own request. */
  predicate BumpsPair(s: State, n: nat, c: nat, t: nat)
    requires Shape(s, n) && c < n
  {
    var f := s.flushers[c];
    f.Running? && f.pc == Bump && f.k == t && t in f.req.targets
  }

  lemma AdvanceSamePair(s: State, n: nat, c: nat, i: nat, t: nat)
    requires Shape(s, n) && Enabled(s, n, Advance(c)) && i < n && t < n
    requires SlotOk(s, n, c) && HintOk(s, n, i, t)
    requires i == c ==> !BumpsPair(s, n, c, t)
    ensures Shape(AdvanceFlush(s, n, c), n) && SamePair(s, AdvanceFlush(s, n, c), n, i, t)
  {
    AdvanceShape(s, n, c);
    if i == c {
      AdvanceOwnPair(s, n, c, t);
    } else {
      AdvanceOtherPair(s, n, c, i, t);
    }
  }

  lemma AdvanceOwnPair(s: State, n: nat, c: nat, t: nat)
    requires Shape(s, n) && Enabled(s, n, Advance(c)) && t < n
    requires SlotOk(s, n, c) && HintOk(s, n, c, t) && !BumpsPair(s, n, c, t)
    ensures Shape(AdvanceFlush(s, n, c), n) && SamePair(s, AdvanceFlush(s, n, c), n, c, t)
  {
    AdvanceShape(s, n, c);
  }

  lemma AdvanceOtherPair(s: State, n: nat, c: nat, i: nat, t: nat)
    requires Shape(s, n) && Enabled(s, n, Advance(c)) && i < n && t < n && i != c
    ensures Shape(AdvanceFlush(s, n, c), n) && SamePair(s, AdvanceFlush(s, n, c), n, i, t)
  {
    AdvanceShape(s, n, c);
  }

  /** A fresh bump is newer than every snapshot taken so far. */
  lemma BumpPair(s: State, n: nat, c: nat, t: nat)
    requires Shape(s, n) && Enabled(s, n, Advance(c)) && t < n
    requires SlotOk(s, n, c) && EpochsOk(s, n, t) && BumpsPair(s, n, c, t)
    ensures Shape(AdvanceFlush(s, n, c), n) && HintOk(AdvanceFlush(s, n, c), n, c, t)
  {
    AdvanceShape(s, n, c);
    var s' := AdvanceFlush(s, n, c);
    assert s'.frames[t] == s.frames[t] && s'.bumps[c][t].epoch == s.pending[t] + 1;
  }

  lemma AdvancePairs(s: State, n: nat, c: nat, i: nat, t: nat)
    requires Hinted(s, n) && Enabled(s, n, Advance(c)) && i < n && t < n
    ensures Shape(AdvanceFlush(s, n, c), n) && HintOk(AdvanceFlush(s, n, c), n, i, t)
  {
    assert SlotOk(s, n, c) && HintOk(s, n, i, t) && EpochsOk(s, n, t);
    if i == c && BumpsPair(s, n, c, t) {
      BumpPair(s, n, c, t);
    } else {
      AdvanceSamePair(s, n, c, i, t);
      PairKept(s, AdvanceFlush(s, n, c), n, i, t);
    }
  }

  lemma AdvanceBumps(s: State, n: nat, c: nat)
    requires Hinted(s, n) && Enabled(s, n, Advance(c))
    ensures Shape(AdvanceFlush(s, n, c), n) && BumpsOk(AdvanceFlush(s, n, c), n, c)
  {
    AdvanceShape(s, n, c);
    assert SlotOk(s, n, c) && BumpsOk(s, n, c);
  }

  lemma AdvanceBumped(s: State, n: nat, c: nat)
    requires Hinted(s, n) && Enabled(s, n, Advance(c))
    ensures Shape(AdvanceFlush(s, n, c), n) && BumpedOk(AdvanceFlush(s, n, c), n)
  {
    AdvanceShape(s, n, c);
    var f := s.flushers[c];
    assert SlotOk(s, n, c);
    if f.pc == Bump && f.k < n {
      assert HintOk(s, n, c, f.k);
    }
  }

  lemma AdvanceHinted(s: State, n: nat, c: nat)
    requires Hinted(s, n) && Enabled(s, n, Advance(c))
    ensures Hinted(AdvanceFlush(s, n, c), n)
  {
    var s' := AdvanceFlush(s, n, c);
    AdvanceSafe(s, n, c);
    AdvanceBumps(s, n, c);
    AdvanceBumped(s, n, c);
    forall i, t | 0 <= i < n && 0 <= t < n ensures HintOk(s', n, i, t) {
      AdvancePairs(s, n, c, i, t);
    }
    forall t | 0 <= t < n ensures EpochsOk(s', n, t) {
      assert EpochsOk(s, n, t);
      AdvanceEpochs(s, n, c, t);
    }
    forall d | 0 <= d < n && d != c ensures BumpsOk(s', n, d) {
      assert BumpsOk(s, n, d);
      AdvanceOtherBumps(s, n, c, d);
    }
  }

  lemma AdvanceEpochs(s: State, n: nat, c: nat, t: nat)
    requires Shape(s, n) && Enabled(s, n, Advance(c)) && t < n && EpochsOk(s, n, t)
    ensures Shape(AdvanceFlush(s, n, c), n) && EpochsOk(AdvanceFlush(s, n, c), n, t)
  {
    AdvanceShape(s, n, c);
  }

  lemma AdvanceOtherBumps(s: State, n: nat, c: nat, d: nat)
    requires Shape(s, n) && Enabled(s, n, Advance(c)) && d < n && d != c && BumpsOk(s, n, d)
    ensures Shape(AdvanceFlush(s, n, c), n) && BumpsOk(AdvanceFlush(s, n, c), n, d)
  {
    AdvanceShape(s, n, c);
  }

  lemma OtherHinted(s: State, n: nat, a: Action)
    requires Hinted(s, n) && Enabled(s, n, a) && (a.Start? || a.Denied? || a.GiveUp?)
    ensures Hinted(Step(s, n, a), n)
  {
    var s' := Step(s, n, a);
    StepSafe(s, n, a);
    forall t | 0 <= t < n ensures EpochsOk(s', n, t) && BumpsOk(s', n, t) {
      assert EpochsOk(s, n, t) && BumpsOk(s, n, t);
    }
    forall i, t | 0 <= i < n && 0 <= t < n ensures HintOk(s', n, i, t) {
      assert HintOk(s, n, i, t);
      PairKept(s, s', n, i, t);
    }
  }

  lemma EnterPair(s: State, s': State, n: nat, c: nat, i: nat)
    requires Shape(s, n) && Shape(s', n) && i < n && c < n && HintOk(s, n, i, c)
    requires s' == s.(frames := s'.frames)
    requires s'.frames[c] == s.frames[c] + [Frame(s.pending[c], Compare, 0, 0, None)]
    ensures HintOk(s', n, i, c)
  {
    var fs, fs' := s.frames[c], s'.frames[c];
    var b := s.bumps[i][c];
    if Current(s', n, i, c) {
      if NoScan(fs') {
        assert forall j :: 0 <= j < |fs| ==> fs[j] == fs'[j];
      }
      forall g: nat | Outermost(fs', g) && fs'[g].epoch >= b.epoch
        ensures AllRead(fs', i, b.id) && (fs'[g].i > i ==> s'.slots[i].acked[c] == b.id)
      {
        PushKeepsOutermost(fs, Frame(s.pending[c], Compare, 0, 0, None), g);
      }
    }
  }

  lemma EnterHinted(s: State, n: nat, c: nat)
    requires Hinted(s, n) && Enabled(s, n, Enter(c))
    ensures Hinted(Step(s, n, Enter(c)), n)
  {
    var s' := Step(s, n, Enter(c));
    StepSafe(s, n, Enter(c));
    forall t | 0 <= t < n ensures EpochsOk(s', n, t) && BumpsOk(s', n, t) {
      assert EpochsOk(s, n, t) && BumpsOk(s, n, t);
    }
    forall i, t | 0 <= i < n && 0 <= t < n ensures HintOk(s', n, i, t) {
      assert HintOk(s, n, i, t);
      if t == c {
        EnterPair(s, s', n, c, i);
      } else {
        PairKept(s, s', n, i, t);
      }
    }
  }

  /** The innermost activation, replaced by `f`, keeps which one is outermost. */
  lemma TopKeepsOutermost(fs: seq<Frame>, f: Frame, g: nat)
    requires fs != []
    requires fs[|fs| - 1].pc != Compare && f.pc != Compare
    ensures Outermost(fs[|fs| - 1 := f], g) <==> Outermost(fs, g)
  {
    var fs' := fs[|fs| - 1 := f];
    forall j | 0 <= j < |fs| ensures fs'[j].pc == Compare <==> fs[j].pc == Compare {
    }
  }

  /** The innermost activation, replaced by `f`, still reads request `id` of slot `i`. */
  lemma TopKeepsReads(fs: seq<Frame>, f: Frame, i: nat, id: nat)
    requires fs != [] && AllRead(fs, i, id)
    requires f.i == i && f.pc !in {Compare, LoadSeq} ==> f.q == id
    ensures AllRead(fs[|fs| - 1 := f], i, id)
  {
    var fs' := fs[|fs| - 1 := f];
    forall j | 0 <= j < |fs'| && fs'[j].i == i && fs'[j].pc !in {Compare, LoadSeq} ensures fs'[j].q == id {
      if j < |fs| - 1 {
        assert fs[j] == fs'[j];
      }
    }
  }

  /** If a scan new enough for an epoch is under way, the innermost activation may go on
      to `f`: it reads request `id` of slot `i` and passes the slot only once acknowledged. */
  ghost predicate MayGoOn(fs: seq<Frame>, f: Frame, i: nat, id: nat, epoch: nat, acked: nat, acked': nat)
    requires fs != []
  {
    forall g: nat :: Outermost(fs, g) && fs[g].epoch >= epoch ==>
      && (f.i == i && f.pc != LoadSeq ==> f.q == id)
      && (acked == id ==> acked' == id)
      && (f.i > i && fs[|fs| - 1].i <= i ==> acked' == id)
  }

  lemma TopScansFor(fs: seq<Frame>, f: Frame, i: nat, id: nat, epoch: nat, acked: nat, acked': nat)
    requires fs != [] && ScansFor(fs, i, id, epoch, acked)
    requires fs[|fs| - 1].pc != Compare && f.pc != Compare && f.epoch == fs[|fs| - 1].epoch
    requires MayGoOn(fs, f, i, id, epoch, acked, acked')
    ensures ScansFor(fs[|fs| - 1 := f], i, id, epoch, acked')
  {
    var fs' := fs[|fs| - 1 := f];
    forall g: nat | Outermost(fs', g) && fs'[g].epoch >= epoch
      ensures AllRead(fs', i, id) && (fs'[g].i > i ==> acked' == id)
    {
      TopKeepsOutermost(fs, f, g);
      assert fs[g].epoch == fs'[g].epoch;
      TopKeepsReads(fs, f, i, id);
    }
  }

  /** A scanning activation goes on to `f`: the hint survives if `f` itself reads
      the current request of slot `i` and leaves slot `i` only once acknowledged. */
  lemma TopPair(s: State, s': State, n: nat, c: nat, i: nat, f: Frame)
    requires Shape(s, n) && Shape(s', n) && i < n && c < n && s.frames[c] != [] && HintOk(s, n, i, c)
    requires Top(s, n, c).pc != Compare && f.pc != Compare && f.epoch == Top(s, n, c).epoch
    requires s'.bumps == s.bumps && s'.pending == s.pending && s'.last == s.last && s'.published == s.published
    requires s'.slots[i].nextSeq == s.slots[i].nextSeq && s'.slots[i].publishedSeq == s.slots[i].publishedSeq
    requires s'.frames[c] == s.frames[c][|s.frames[c]| - 1 := f]
    requires Current(s, n, i, c) ==>
               MayGoOn(s.frames[c], f, i, s.bumps[i][c].id, s.bumps[i][c].epoch, s.slots[i].acked[c], s'.slots[i].acked[c])
    ensures HintOk(s', n, i, c)
  {
    var fs' := s'.frames[c];
    if Current(s', n, i, c) {
      assert !NoScan(fs') by { assert fs'[|fs'| - 1].pc != Compare; }
      TopScansFor(s.frames[c], f, i, s.bumps[i][c].id, s.bumps[i][c].epoch, s.slots[i].acked[c], s'.slots[i].acked[c]);
    }
  }

  /** Returning from the innermost activation: either it had not started to scan,
      or it ends its scan and stores its entry snapshot. */
  lemma PopPair(s: State, s': State, n: nat, c: nat, i: nat)
    requires Shape(s, n) && Shape(s', n) && i < n && c < n && s.frames[c] != [] && HintOk(s, n, i, c)
    requires s'.bumps == s.bumps && s'.pending == s.pending && s'.slots == s.slots && s'.published == s.published
    requires s'.frames[c] == s.frames[c][..|s.frames[c]| - 1]
    requires s'.last[c] == if Top(s, n, c).pc == Compare then s.last[c] else Top(s, n, c).epoch
    requires Top(s, n, c).pc != Compare ==> Top(s, n, c).i == n
    ensures HintOk(s', n, i, c)
  {
    var fs, fs' := s.frames[c], s'.frames[c];
    var top := |fs| - 1;
    assert forall j :: 0 <= j < |fs'| ==> fs'[j] == fs[j];
    if Current(s', n, i, c) {
      if NoScan(fs') {
        if fs[top].pc == Compare {
          assert NoScan(fs);
        } else {
          assert Outermost(fs, top);
        }
      }
      forall g: nat | Outermost(fs', g) && fs'[g].epoch >= s.bumps[i][c].epoch
        ensures AllRead(fs', i, s.bumps[i][c].id) && (fs'[g].i > i ==> s'.slots[i].acked[c] == s.bumps[i][c].id)
      {
        assert Outermost(fs, g);
      }
    }
  }

  /** The entry test fails and the innermost activation starts to scan. */
  lemma BeginPair(s: State, s': State, n: nat, c: nat, i: nat)
    requires Shape(s, n) && Shape(s', n) && i < n && c < n && s.frames[c] != [] && HintOk(s, n, i, c)
    requires s' == s.(frames := s'.frames) && Top(s, n, c).pc == Compare
    requires s'.frames[c] == s.frames[c][|s.frames[c]| - 1 := Top(s, n, c).(pc := LoadSeq, i := 0)]
    ensures HintOk(s', n, i, c)
  {
    var fs, fs' := s.frames[c], s'.frames[c];
    var top := |fs| - 1;
    assert forall j :: 0 <= j < top ==> fs'[j] == fs[j];
    assert fs'[top].pc == LoadSeq;
    if Current(s', n, i, c) {
      forall g: nat | Outermost(fs', g) && fs'[g].epoch >= s.bumps[i][c].epoch
        ensures AllRead(fs', i, s.bumps[i][c].id) && (fs'[g].i > i ==> s'.slots[i].acked[c] == s.bumps[i][c].id)
      {
        if g < top {
          assert Outermost(fs, g);
        }
      }
    }
  }

  /** What the innermost scanning activation does next, seen from the pair `(i, c)`. */
  lemma ScanPair(s: State, n: nat, c: nat, i: nat)
    requires Hinted(s, n) && Enabled(s, n, Scan(c)) && i < n
    ensures Shape(AdvanceScan(s, n, c), n) && HintOk(AdvanceScan(s, n, c), n, i, c)
  {
    ScanShape(s, n, c);
    var s' := AdvanceScan(s, n, c);
    var f := Top(s, n, c);
    assert HintOk(s, n, i, c) && SlotOk(s, n, i);
    if f.pc == Compare {
      if f.epoch == s.last[c] {
        PopPair(s, s', n, c, i);
      } else {
        BeginPair(s, s', n, c, i);
      }
    } else if f.pc == LoadSeq && f.i == n {
      PopPair(s, s', n, c, i);
    } else {
      ScanTopPair(s, n, c, i);
    }
  }

  lemma ScanTopPair(s: State, n: nat, c: nat, i: nat)
    requires Shape(s, n) && Enabled(s, n, Scan(c)) && i < n && HintOk(s, n, i, c) && SlotOk(s, n, i)
    requires Top(s, n, c).pc != Compare && !(Top(s, n, c).pc == LoadSeq && Top(s, n, c).i == n)
    ensures Shape(AdvanceScan(s, n, c), n) && HintOk(AdvanceScan(s, n, c), n, i, c)
  {
    ScanShape(s, n, c);
    var s' := AdvanceScan(s, n, c);
    var fs := s.frames[c];
    var f := Top(s, n, c);
    assert fs[|fs| - 1] == f;
    TopPair(s, s', n, c, i, s'.frames[c][|fs| - 1]);
  }

  /** A step of one CPU's handler that leaves epochs and bumps of others alone. */
  lemma HandlerStepHinted(s: State, s': State, n: nat, c: nat)
    requires Hinted(s, n) && Safe(s', n) && c < n
    requires s'.bumps == s.bumps && s'.bumped == s.bumped && s'.pending == s.pending
    requires s'.flushers == s.flushers && s'.published == s.published
    requires forall t :: 0 <= t < n && t != c ==> s'.frames[t] == s.frames[t] && s'.last[t] == s.last[t]
    requires forall i :: 0 <= i < n ==>
               && s'.slots[i].nextSeq == s.slots[i].nextSeq && s'.slots[i].publishedSeq == s.slots[i].publishedSeq
               && (forall t :: 0 <= t < n && t != c ==> s'.slots[i].acked[t] == s.slots[i].acked[t])
    requires EpochsOk(s', n, c)
    requires forall i :: 0 <= i < n ==> HintOk(s', n, i, c)
    ensures Hinted(s', n)
  {
    forall t | 0 <= t < n ensures EpochsOk(s', n, t) && BumpsOk(s', n, t) {
      assert EpochsOk(s, n, t) && BumpsOk(s, n, t);
    }
    forall i, t | 0 <= i < n && 0 <= t < n ensures HintOk(s', n, i, t) {
      if t != c {
        PairKept(s, s', n, i, t);
      }
    }
  }

  lemma ScanHinted(s: State, n: nat, c: nat)
    requires Hinted(s, n) && Enabled(s, n, Scan(c))
    ensures Hinted(AdvanceScan(s, n, c), n)
  {
    var s' := AdvanceScan(s, n, c);
    StepSafe(s, n, Scan(c));
    assert EpochsOk(s, n, c);
    forall i | 0 <= i < n ensures HintOk(s', n, i, c) {
      ScanPair(s, n, c, i);
    }
    HandlerStepHinted(s, s', n, c);
  }

  lemma StepHinted(s: State, n: nat, a: Action)
    requires Hinted(s, n) && Enabled(s, n, a)
    ensures Hinted(Step(s, n, a), n)
  {
    match a
    case Advance(c) => AdvanceHinted(s, n, c);
    case Enter(c) => EnterHinted(s, n, c);
    case Scan(c) => ScanHinted(s, n, c);
    case _ => OtherHinted(s, n, a);
  }

  lemma InitHinted(n: nat)
    ensures Hinted(Init(n), n)
  {
    InitSafe(n);
  }

  lemma {:induction false} RunHinted(s: State, n: nat, run: seq<Action>, s': State)
    requires Hinted(s, n) && Runs(s, n, run, s')
    ensures Hinted(s', n)
    decreases |run|
  {
    if run != [] {
      StepHinted(s, n, run[0]);
      RunHinted(Step(s, n, run[0]), n, run[1..], s');
    }
  }

  lemma ReachableHinted(s: State, n: nat)
    requires Reachable(s, n)
    ensures Hinted(s, n)
  {
    var run :| Runs(Init(n), n, run, s);
    InitHinted(n);
    RunHinted(Init(n), n, run, s);
  }

  // ---- the fast path ------------------------------------------------------------

  /** No scan is under way on `t` and its last handled epoch equals its pending
      epoch: every request ever announced to `t` is acknowledged by `t`, or its
      slot has already been reused for a later one. */
  lemma FastPathHidesNothing(s: State, n: nat, t: nat)
    requires Reachable(s, n) && Shape(s, n) && t < n
    requires NoScan(s.frames[t]) && s.last[t] == s.pending[t]
    ensures forall i, id :: (i, id, t) in s.bumped ==> i < n && (s.slots[i].acked[t] == id || s.slots[i].nextSeq > id)
  {
    ReachableHinted(s, n);
    forall i, id | (i, id, t) in s.bumped
      ensures i < n && (s.slots[i].acked[t] == id || s.slots[i].nextSeq > id)
    {
      assert HintOk(s, n, i, t) && SlotOk(s, n, i);
    }
  }

  /** Said of published requests, this holds for every slot that is not between
      allocating a sequence and publishing it. */
  lemma FastPathBetweenRequests(s: State, n: nat, t: nat, i: nat, id: nat)
    requires Reachable(s, n) && Shape(s, n) && t < n && i < n && (i, id, t) in s.bumped
    requires NoScan(s.frames[t]) && s.last[t] == s.pending[t]
    requires s.slots[i].nextSeq == s.slots[i].publishedSeq
    ensures s.slots[i].acked[t] == id || s.slots[i].publishedSeq > id
  {
    FastPathHidesNothing(s, n, t);
  }

  // ---- polling while waiting ----------------------------------------------------

  /** Every activation on `t` started at epoch `e` or later, and one that ended
      since the count stood at `base` left its mark. */
  predicate PolledSince(s: State, n: nat, t: nat, e: nat, base: nat)
    requires Shape(s, n) && t < n
  {
    && s.pending[t] >= e && s.polls[t] >= base
    && (forall j :: 0 <= j < |s.frames[t]| ==> s.frames[t][j].epoch >= e)
    && (s.polls[t] > base ==> s.last[t] >= e)
  }

  lemma StepPolled(s: State, n: nat, a: Action, t: nat, e: nat, base: nat)
    requires Shape(s, n) && Enabled(s, n, a) && t < n && PolledSince(s, n, t, e, base)
    ensures Shape(Step(s, n, a), n) && PolledSince(Step(s, n, a), n, t, e, base)
  {
    StepShape(s, n, a);
    match a
    case Advance(c) => AdvancePolled(s, n, c, t, e, base);
    case Scan(c) => ScanPolled(s, n, c, t, e, base);
    case _ =>
  }

  lemma AdvancePolled(s: State, n: nat, c: nat, t: nat, e: nat, base: nat)
    requires Shape(s, n) && Enabled(s, n, Advance(c)) && t < n && PolledSince(s, n, t, e, base)
    ensures Shape(AdvanceFlush(s, n, c), n) && PolledSince(AdvanceFlush(s, n, c), n, t, e, base)
  {
    AdvanceShape(s, n, c);
  }

  lemma ScanPolled(s: State, n: nat, c: nat, t: nat, e: nat, base: nat)
    requires Shape(s, n) && Enabled(s, n, Scan(c)) && t < n && PolledSince(s, n, t, e, base)
    ensures Shape(AdvanceScan(s, n, c), n) && PolledSince(AdvanceScan(s, n, c), n, t, e, base)
  {
    ScanShape(s, n, c);
  }

  lemma {:induction false} RunPolled(s: State, n: nat, run: seq<Action>, s': State, t: nat, e: nat, base: nat)
    requires Runs(s, n, run, s') && t < n && PolledSince(s, n, t, e, base)
    ensures Shape(s', n) && PolledSince(s', n, t, e, base)
    decreases |run|
  {
    if run != [] {
      StepPolled(s, n, run[0], t, e, base);
      RunPolled(Step(s, n, run[0]), n, run[1..], s', t, e, base);
    }
  }

  /** CPU `c` is past announcing its current request. */
  predicate Announced(s: State, n: nat, c: nat)
    requires Shape(s, n) && c < n
  {
    s.flushers[c].Running? ==> s.flushers[c].pc in {Alloc, Wait, TakeRetry, Release}
  }

  lemma StepAnnounced(s: State, n: nat, a: Action, c: nat)
    requires Shape(s, n) && Enabled(s, n, a) && c < n
    ensures Shape(Step(s, n, a), n)
    ensures Step(s, n, a).slots[c].nextSeq >= s.slots[c].nextSeq
    ensures Announced(s, n, c) && Step(s, n, a).slots[c].nextSeq == s.slots[c].nextSeq ==>
              Announced(Step(s, n, a), n, c) && Step(s, n, a).bumps[c] == s.bumps[c]
  {
    StepShape(s, n, a);
    if a.Advance? {
      AdvanceAnnounced(s, n, a.c, c);
    }
  }

  lemma AdvanceAnnounced(s: State, n: nat, d: nat, c: nat)
    requires Shape(s, n) && Enabled(s, n, Advance(d)) && c < n
    ensures Shape(AdvanceFlush(s, n, d), n)
    ensures AdvanceFlush(s, n, d).slots[c].nextSeq >= s.slots[c].nextSeq
    ensures Announced(s, n, c) && AdvanceFlush(s, n, d).slots[c].nextSeq == s.slots[c].nextSeq ==>
              Announced(AdvanceFlush(s, n, d), n, c) && AdvanceFlush(s, n, d).bumps[c] == s.bumps[c]
  {
    AdvanceShape(s, n, d);
  }

  lemma {:induction false} RunSeqGrows(s: State, n: nat, run: seq<Action>, s': State, c: nat)
    requires Runs(s, n, run, s') && c < n
    ensures Shape(s', n) && s'.slots[c].nextSeq >= s.slots[c].nextSeq
    decreases |run|
  {
    if run != [] {
      StepAnnounced(s, n, run[0], c);
      RunSeqGrows(Step(s, n, run[0]), n, run[1..], s', c);
    }
  }

  lemma {:induction false} RunAnnounced(s: State, n: nat, run: seq<Action>, s': State, c: nat)
    requires Runs(s, n, run, s') && c < n && Announced(s, n, c)
    requires Shape(s', n) && s'.slots[c].nextSeq == s.slots[c].nextSeq
    ensures s'.bumps[c] == s.bumps[c]
    decreases |run|
  {
    if run != [] {
      StepAnnounced(s, n, run[0], c);
      RunSeqGrows(Step(s, n, run[0]), n, run[1..], s', c);
      RunAnnounced(Step(s, n, run[0]), n, run[1..], s', c);
    }
  }

  /** A CPU `c` sits in its wait loop with its bumps done; in any continuation in
      which its slot still holds the same request, a target `t` that was outside
      the handler and has since completed a poll has acknowledged it. */
  lemma OnePollAcknowledges(s: State, n: nat, run: seq<Action>, s': State, c: nat, t: nat)
    requires Reachable(s, n) && Runs(s, n, run, s') && Shape(s', n) && c < n && t < n
    requires s.flushers[c].Running? && s.flushers[c].pc == Wait && t in s.flushers[c].req.targets
    requires s.frames[t] == [] && s'.frames[t] == [] && s'.polls[t] > s.polls[t]
    requires s'.slots[c].nextSeq == s.slots[c].nextSeq
    ensures s'.slots[c].acked[t] == s.flushers[c].req.id
  {
    ReachableHinted(s, n);
    RunHinted(s, n, run, s');
    assert BumpsOk(s, n, c) && SlotOk(s, n, c) && HintOk(s, n, c, t);
    RunAnnounced(s, n, run, s', c);
    RunPolled(s, n, run, s', t, s.bumps[c][t].epoch, s.polls[t]);
    assert HintOk(s', n, c, t);
  }

  /** Mutual shootdowns with interrupts off cannot deadlock: take any set of CPUs
      that all sit in the wait loop, and any continuation, interleaved with
      whatever other CPUs do, in which each of them polls once.  Then no member
      still waits for another member. */
  lemma MutualWaitResolves(s: State, n: nat, run: seq<Action>, s': State, group: set<nat>)
    requires Reachable(s, n) && Runs(s, n, run, s') && Shape(s', n)
    requires forall c :: c in group ==>
               && c < n && s.flushers[c].Running? && s.flushers[c].pc == Wait
               && s.frames[c] == [] && s'.frames[c] == [] && s'.polls[c] > s.polls[c]
               && s'.slots[c].nextSeq == s.slots[c].nextSeq
    ensures forall c, t :: c in group && t in group && t in s.flushers[c].req.targets ==>
              s'.slots[c].acked[t] == s.flushers[c].req.id
  {
    forall c, t | c in group && t in group && t in s.flushers[c].req.targets
      ensures s'.slots[c].acked[t] == s.flushers[c].req.id
    {
      OnePollAcknowledges(s, n, run, s', c, t);
    }
  }
}
