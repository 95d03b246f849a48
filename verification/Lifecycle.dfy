/**
 What complete operations do to the answers, and what every run of operations keeps, however
 often each of them is interrupted.
 */
module Lifecycle {
  import opened Disk
  import opened Programs
  import opened Arithmetic
  import opened Phases
  import opened PhaseData
  import opened CrashSafety
  import opened Outcomes
  import opened CrashTheorems

  // ---------------------------------------------------------------- answers of complete operations

  /** Shrinking keeps every version that fits and exposes nothing older; the new secondary
      timeline is active and empty. */
  lemma ActivateAnswers(o: Disk, total: nat, v: nat)
    requires Quiescent(Activate, o, total)
    ensures var r := Complete(Activate, o);
            var p := o.m0.primaryRing();
            && RootOffsetAt(r, 0, v) == (if KeptFrom(Activate, o.m0, o.entries) <= v then RootOffsetAt(o, 0, v)
                                         else INVALID_OFFSET)
            && KeptFrom(Activate, o.m0, o.entries)
               == Max(p.lowerBound, if p.nextVersion >= Cap(total / 2, o.entries)
                      then p.nextVersion - Cap(total / 2, o.entries) else 0)
            && TimelineActive(r.m0, 1) && RootOffsetAt(r, 1, v) == INVALID_OFFSET
            && HistoryMax(r.m0, 1) == INVALID_BLOCK_NUM
            && RangeLowerBound(r.m0, 0) == (if HistoryMax(o.m0, 0) == INVALID_BLOCK_NUM then INVALID_BLOCK_NUM
                                            else KeptFrom(Activate, o.m0, o.entries))
            && HistoryMax(r.m0, 0) == HistoryMax(o.m0, 0)
            && r.m0.historyLength == (if Cap(total / 2, o.entries) < o.m0.historyLength
                                      then Max(Cap(total / 2, o.entries), MIN_HISTORY_LENGTH) else o.m0.historyLength)
  {
    CompleteIs(Activate, o, total);
    var r := Complete(Activate, o);
    PhaseFacts(Activate, o.m0, r.m0, total, o.entries);
    PostWindows(Activate, o, total, r.m0);
    assert TimelineActive(r.m0, 0);
    AnswerIs(r, 0, v);
    AnswerIs(o, 0, v);
  }

  /** Growing keeps every version; the secondary timeline is gone. */
  lemma DeactivateAnswers(o: Disk, total: nat, v: nat)
    requires Quiescent(Deactivate, o, total)
    ensures var r := Complete(Deactivate, o);
            && RootOffsetAt(r, 0, v) == RootOffsetAt(o, 0, v)
            && RangeLowerBound(r.m0, 0) == RangeLowerBound(o.m0, 0) && HistoryMax(r.m0, 0) == HistoryMax(o.m0, 0)
            && !TimelineActive(r.m0, 1) && RootOffsetAt(r, 1, v) == INVALID_OFFSET
  {
    CompleteIs(Deactivate, o, total);
    var r := Complete(Deactivate, o);
    PhaseFacts(Deactivate, o.m0, r.m0, total, o.entries);
    PostWindows(Deactivate, o, total, r.m0);
    assert TimelineActive(r.m0, 0);
    AnswerIs(r, 0, v);
    AnswerIs(o, 0, v);
  }

  /** Promotion swaps the timelines: history and auto-expire value follow the ring. */
  lemma PromoteAnswers(o: Disk, total: nat, t: Bit, v: nat)
    requires Quiescent(Promote, o, total)
    ensures var r := Complete(Promote, o);
            && RootOffsetAt(r, t, v) == RootOffsetAt(o, 1 - t, v)
            && RangeLowerBound(r.m0, t) == RangeLowerBound(o.m0, 1 - t)
            && HistoryMax(r.m0, t) == HistoryMax(o.m0, 1 - t)
            && AutoExpireOf(r.m0, t) == AutoExpireOf(o.m0, 1 - t)
  {
    CompleteIs(Promote, o, total);
    var r := Complete(Promote, o);
    PhaseFacts(Promote, o.m0, r.m0, total, o.entries);
    PostWindows(Promote, o, total, r.m0);
    AnswerIs(r, t, v);
    AnswerIs(o, 1 - t, v);
  }

  /** What a complete operation does to the rest of what queries show: the consensus markers stay, expiry values stay
      with their rings, the history length changes in activation only, and the rings have the capacities of their
      chunks. */
  lemma CompleteRest(op: OpKind, o: Disk, total: nat)
    requires Quiescent(op, o, total)
    ensures var r := Complete(op, o);
            && r.m0.consensus == o.m0.consensus && r.m1.consensus == o.m0.consensus
            && (op != Activate ==> r.m0.historyLength == o.m0.historyLength)
            && (forall t: Bit :: AutoExpireOf(r.m0, t) == AutoExpireOf(o.m0, if op == Promote then 1 - t else t))
            && (forall t: Bit :: Capacity(r, t) == if op == Deactivate then if t == 0 then Cap(total, o.entries) else 0
                                                   else Cap(total / 2, o.entries))
            && TimelineActive(r.m0, 1) == (op != Deactivate)
  {
    CompleteIs(op, o, total);
    var r := Complete(op, o);
    PhaseFacts(op, o.m0, r.m0, total, o.entries);
    RestOf(op, o, total, r.m0);
    RestOf(op, o, total, r.m1);
  }

  lemma RestOf(op: OpKind, o: Disk, total: nat, x: Metadata)
    requires Quiescent(op, o, total) && InPost(op, o, x)
    ensures x.consensus == o.m0.consensus && x.active == (op != Deactivate)
    ensures x.primary == if op == Promote then 1 - o.m0.primary else o.m0.primary
    ensures forall i: Bit :: x.ring(i).autoExpire == o.m0.ring(i).autoExpire
    ensures x.primaryRing().len == (if op == Deactivate then total else total / 2)
    ensures x.secondaryRing().len == (if op == Deactivate then 0 else total / 2)
  {
    var q := PostMeta(op, o.m0, o.entries, N(op, o));
    PhaseFacts(op, o.m0, o.m0, total, o.entries);
    assert Norm(x).a == x.a == q.a && Norm(x).b == x.b == q.b && Norm(x).primary == x.primary == q.primary;
    assert Norm(x).active == x.active == q.active && Norm(x).consensus == x.consensus == q.consensus;
  }

  /** Deactivation puts the chunk list back in its original order, whatever the primary did
      to its versions and entries in between. */
  lemma ChunkListRoundTrip(m: Metadata, y: Metadata, total: nat, e: Pos)
    requires Ready(Activate, m, total, e)
    requires var q := PostMeta(Activate, m, e, Target(Activate, m));
             && y.primary == q.primary && y.active
             && (forall i: Bit :: y.ring(i).slots == q.ring(i).slots && y.ring(i).len == q.ring(i).len)
    ensures var z := PostMeta(Deactivate, y, e, Target(Deactivate, y));
            && z.primary == m.primary && !z.active
            && z.primaryRing().slots == m.primaryRing().slots && z.primaryRing().len == m.primaryRing().len
            && z.secondaryRing().slots == m.secondaryRing().slots && z.secondaryRing().len == 0
  {
    PhaseFacts(Activate, m, m, total, e);
    SpliceBack(m.primaryRing().slots, m.secondaryRing().slots, Target(Activate, m));
  }

  /** Cutting the tail of one list into the other and back. */
  lemma SpliceBack(p: SlotList, s: SlotList, n: nat)
    requires 2 * n <= SLOTS && NullFrom(s, 0)
    ensures Splice(s, 0, p[n..2 * n])[..n] == p[n..2 * n]
    ensures Splice(Splice(p, n, Nulls(n)), n, p[n..2 * n]) == p
    ensures Splice(Splice(s, 0, p[n..2 * n]), 0, Nulls(n)) == s
  {
  }

  // ---------------------------------------------------------------- every run

  /** Both copies are clean, carry no intent, agree, and partition the chunks. */
  ghost predicate Sound(d: Disk, total: nat) {
    && Clean(d) && !Intent(d) && Norm(d.m0) == Norm(d.m1) && WellFormed(d.m0, total, d.entries)
  }

  function Ids(k: nat, n: nat): seq<nat> {
    seq(n, (i: nat) => k + i)
  }

  /** A fresh pool: ring A owns chunks `1 .. total`, ring B owns none, nothing is stored. */
  function FreshPool(total: nat, e: Pos): Disk
    requires total <= SLOTS
  {
    var a := Ring(0, 0, total, Ids(1, total) + Nulls(SLOTS - total), 0);
    var b := Ring(0, 0, 0, Nulls(SLOTS), 0);
    var m := Metadata(a, b, 0, false, NoOp, 0, Cap(total, e),
                      Consensus(INVALID_BLOCK_NUM, INVALID_BLOCK_NUM, INVALID_BLOCK_NUM, 0, INVALID_BLOCK_NUM, 0));
    Disk(e, false, false, m, m, map[], map[])
  }

  lemma FreshSound(total: nat, e: Pos)
    requires PowerOfTwo(total) && total <= SLOTS
    ensures Sound(FreshPool(total, e), total)
  {
    var m := FreshPool(total, e).m0;
    var ids := m.a.slots[..total] + m.b.slots[..0];
    assert ids == Ids(1, total);
    forall x ensures x in ids <==> 1 <= x <= total {
      if 1 <= x <= total {
        assert ids[x - 1] == x;
      }
    }
  }

  /** One operation, killed after `k` stores, and then opens killed after `ks` stores each,
      before one open completes.  An operation whose assertions fail stops before storing. */
  datatype Event = Event(op: OpKind, k: nat, ks: seq<nat>)

  ghost function Next(d: Disk, ev: Event, total: nat): Disk {
    if Ready(ev.op, d.m0, total, d.entries) then Recovered(RunTo(ev.op, d, ev.k, ev.ks)) else d
  }

  ghost function History(d: Disk, evs: seq<Event>, total: nat): Disk {
    if evs == [] then d else Next(History(d, evs[..|evs| - 1], total), evs[|evs| - 1], total)
  }

  lemma NextSound(d: Disk, ev: Event, total: nat)
    requires Sound(d, total)
    ensures Sound(Next(d, ev, total), total) && Next(d, ev, total).entries == d.entries
  {
    if Ready(ev.op, d.m0, total, d.entries) {
      RunShape(ev.op, d, total, ev.k, ev.ks);
      RecoveredSound(ev.op, d, RunTo(ev.op, d, ev.k, ev.ks), total);
    }
  }

  lemma RecoveredSound(op: OpKind, o: Disk, d: Disk, total: nat)
    requires Quiescent(op, o, total) && Shape(op, o, d)
    ensures Sound(Recovered(d), total) && Recovered(d).entries == o.entries
  {
    RecoveryExact(op, o, total, d);
    PostWellFormed(op, o.m0, total, o.entries);
    PhaseFacts(op, o.m0, Recovered(d).m0, total, o.entries);
  }

  /** An event that is not interrupted is the complete operation. */
  lemma UninterruptedEvent(op: OpKind, d: Disk, total: nat)
    requires Quiescent(op, d, total)
    ensures Next(d, Event(op, |Operation(op, d)|, []), total) == Complete(op, d)
  {
    CompleteIs(op, d, total);
    CrashWhole(d, Operation(op, d), |Operation(op, d)|);
    var r := Complete(op, d);
    assert AfterCrashes(r, []) == r;
    assert Restore(r) == [] && Run(r, []) == r && Replay(r) == [];
    assert Recovery(r) == [];
  }

  lemma {:induction false} PowerOfTwoDouble(n: nat)
    requires PowerOfTwo(n)
    ensures PowerOfTwo(2 * n)
  {
    assert 2 * n / 2 == n;
  }

  lemma {:induction false} PowerOfTwoCap(n: nat, e: Pos)
    requires PowerOfTwo(n) && PowerOfTwo(e)
    ensures PowerOfTwo(Cap(n, e))
  {
    if n == 1 {
      assert Cap(1, e) == e + Cap(0, e);
    } else {
      PowerOfTwoCap(n / 2, e);
      CapAdd(n / 2, n / 2, e);
      PowerOfTwoDouble(Cap(n / 2, e));
    }
  }

  /** In every run from a fresh pool, with any number of crashes in each operation: the
      chunks are partitioned between the rings, unused slots are null, and the capacity of
      each ring is zero or a power of two. */
  lemma {:induction false} EveryRun(total: nat, e: Pos, evs: seq<Event>)
    requires PowerOfTwo(total) && total <= SLOTS && PowerOfTwo(e)
    ensures var d := History(FreshPool(total, e), evs, total);
            var p, s := d.m0.primaryRing(), d.m0.secondaryRing();
            && Sound(d, total) && d.entries == e
            && (if d.m0.active then p.len == s.len && p.len + s.len == total else p.len == total && s.len == 0)
            && Permutation(p.slots[..p.len] + s.slots[..s.len], total)
            && NullFrom(p.slots, p.len) && NullFrom(s.slots, s.len)
            && PowerOfTwo(Cap(p.len, e)) && (s.len == 0 || PowerOfTwo(Cap(s.len, e)))
  {
    if evs == [] {
      FreshSound(total, e);
      PowerOfTwoCap(total, e);
    } else {
      EveryRun(total, e, evs[..|evs| - 1]);
      var d := History(FreshPool(total, e), evs[..|evs| - 1], total);
      NextSound(d, evs[|evs| - 1], total);
      var m := History(FreshPool(total, e), evs, total).m0;
      if m.active {
        assert m.primaryRing().len == total / 2;
        PowerOfTwoCap(total / 2, e);
      } else {
        PowerOfTwoCap(total, e);
      }
    }
  }
}
