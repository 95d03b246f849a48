/**
 Copies that disagree.  The public calls assert nothing about the two headers agreeing, and an
 append or a setter killed between its two scopes leaves them apart.  The operations keep the
 chunk lists of the copies equal; everything else about their agreement turns out to be part
 of the exact condition.
 */
module Agreement {
  import opened Disk
  import opened Programs
  import opened Phases
  import opened CrashSafety
  import opened Outcomes
  import opened CrashTheorems
  import opened TornStamp

  /** Nothing is dirty and nothing is pending. */
  predicate AtRest(o: Disk) {
    Clean(o) && !Intent(o)
  }

  /** The disk whose copy 0 reads as copy 1 does. */
  function Swayed(o: Disk): Disk {
    o.(m0 := o.m1)
  }

  /** An operation that dies with its first store makes copy 0 what copy 1 was, over the same entries. */
  lemma FirstStore(op: OpKind, o: Disk)
    requires AtRest(o)
    ensures var r := Recovered(RunTo(op, o, 1, []));
            Clean(r) && r.m0 == o.m1 && r.m1 == o.m1 && r.cells0 == o.cells0 && r.entries == o.entries
  {
    var st := Stamp(op, N(op, o));
    var i0 := [Store(0, PendingKind(op)), Store(0, PendingParam(N(op, o)))];
    OperationIs(op, o);
    CrashFirst(o, st, Program(op, o, Run(o, st)), 1);
    CrashFirst(o, Scope(0, i0), PendingScope(1, op, N(op, o)), 1);
    PendingMeta(0, o.m0, op, N(op, o));
    ScopeOpen(o, 0, i0, 1);
    NoCells(o.cells0, i0[..0]);
    var d := RunTo(op, o, 1, []);
    RestoreDone(d);
    RunAppend(d, Restore(d), Replay(Run(d, Restore(d))));
  }

  /** So all-or-nothing needs copy 1 to answer every query as copy 0 does. */
  lemma AgreementNeeded(op: OpKind, o: Disk)
    requires AtRest(o) && forall k, ks :: AllOrNothing(op, o, k, ks)
    ensures SameAnswers(Swayed(o), o)
  {
    FirstStore(op, o);
    assert AllOrNothing(op, o, 1, []);
    SwayedAnswers(o, Recovered(RunTo(op, o, 1, [])), o);
  }

  lemma SwayedAnswers(o: Disk, r: Disk, x: Disk)
    requires r.m0 == o.m1 && r.cells0 == o.cells0 && r.entries == o.entries
    ensures SameAnswers(r, x) <==> SameAnswers(Swayed(o), x)
  {
    forall t: Bit, v: nat ensures RootOffsetAt(r, t, v) == RootOffsetAt(Swayed(o), t, v) {
    }
    assert forall t: Bit :: Capacity(r, t) == Capacity(Swayed(o), t);
  }

  // ---------------------------------------------------------------- and nothing else

  /** Roles, lengths and chunk ids: what only the three operations change. */
  predicate ListsAgree(x: Metadata, y: Metadata) {
    && x.primary == y.primary && x.active == y.active
    && x.a.len == y.a.len && x.a.slots == y.a.slots && x.b.len == y.b.len && x.b.slots == y.b.slots
  }

  /** A disk on which the call may be made: at rest, each copy well formed, the same chunk lists. */
  ghost predicate Callable(op: OpKind, o: Disk, total: nat) {
    AtRest(o) && ListsAgree(o.m0, o.m1) && Ready(op, o.m0, total, o.entries) && Ready(op, o.m1, total, o.entries)
  }

  /** The ring behind a live timeline is known from the answers. */
  lemma RingFromAnswers(o: Disk, t: Bit)
    requires SameAnswers(Swayed(o), o) && ListsAgree(o.m0, o.m1) && TimelineActive(o.m0, t)
    requires InWindow(o.m0.ring(RingOf(o.m0, t)), o.entries) && InWindow(o.m1.ring(RingOf(o.m1, t)), o.entries)
    ensures o.m0.ring(RingOf(o.m0, t)) == o.m1.ring(RingOf(o.m1, t))
  {
    var s := Swayed(o);
    assert TimelineActive(s.m0, t) && s.m0 == o.m1;
    assert HistoryMax(s.m0, t) == HistoryMax(o.m0, t);
    assert RangeLowerBound(s.m0, t) == RangeLowerBound(o.m0, t);
    assert AutoExpireOf(s.m0, t) == AutoExpireOf(o.m0, t);
  }

  lemma NormFromRings(x: Metadata, y: Metadata)
    requires ListsAgree(x, y) && x.consensus == y.consensus
    requires x.primaryRing() == y.primaryRing() && x.secondaryRing() == y.secondaryRing()
    ensures Norm(x) == Norm(y)
  {
  }

  /** While both timelines are live, copies that answer alike agree on all that matters. */
  lemma AnswersAgree(op: OpKind, o: Disk, total: nat)
    requires Callable(op, o, total) && (op == Deactivate || op == Promote) && SameAnswers(Swayed(o), o)
    ensures Quiescent(op, o, total) && SameLengths(o)
  {
    RingFromAnswers(o, 0);
    RingFromAnswers(o, 1);
    NormFromRings(o.m0, o.m1);
  }

  /** Deactivate and promote on copies with the same chunk lists: all runs are all-or-nothing for every query exactly
      when copy 1 answers every query as copy 0 does. */
  lemma AllOrNothingIff(op: OpKind, o: Disk, total: nat)
    requires Callable(op, o, total) && (op == Deactivate || op == Promote)
    ensures (forall k, ks :: AllOrNothing(op, o, k, ks)) <==> SameAnswers(Swayed(o), o)
  {
    if SameAnswers(Swayed(o), o) {
      AnswersAgree(op, o, total);
      AnyNumberOfCrashesIff(op, o, total);
    } else if forall k, ks :: AllOrNothing(op, o, k, ks) {
      AgreementNeeded(op, o);
    }
  }

  // ---------------------------------------------------------------- atomicity

  /** The disk whose copy 1 is its copy 0. */
  function Mirror(o: Disk): Disk {
    o.(dirty1 := o.dirty0, m1 := o.m0, cells1 := o.cells0)
  }

  predicate SameCopy0(d: Disk, e: Disk) {
    d.entries == e.entries && d.dirty0 == e.dirty0 && d.m0 == e.m0 && d.cells0 == e.cells0
  }

  /** Two scopes of which the first is the same. */
  lemma ScopesCopy0(d: Disk, e: Disk, i0: seq<Write>, i1: seq<Write>, j1: seq<Write>)
    requires SameCopy0(d, e) && Inside(0, i0) && Inside(1, i1) && Inside(1, j1)
    ensures var r, q := Run(d, Scope(0, i0) + Scope(1, i1)), Run(e, Scope(0, i0) + Scope(1, j1));
            && SameCopy0(r, q) && Clean(r) && Clean(q) && r.m1 == MetaEffect(d.m1, i1)
            && r.m0 == MetaEffect(d.m0, i0) && r.entries == d.entries
  {
    RunAppend(d, Scope(0, i0), Scope(1, i1));
    RunAppend(e, Scope(0, i0), Scope(1, j1));
    ScopeClosed(d, 0, i0);
    ScopeClosed(e, 0, i0);
    ScopeClosed(Run(d, Scope(0, i0)), 1, i1);
    ScopeClosed(Run(e, Scope(0, i0)), 1, j1);
  }

  lemma PendingCopy0(d: Disk, e: Disk, op: OpKind, n: nat)
    requires SameCopy0(d, e)
    ensures var r, q := Run(d, Stamp(op, n)), Run(e, Stamp(op, n));
            && SameCopy0(r, q) && Clean(r) && Clean(q) && r.entries == d.entries
            && r.m0 == d.m0.(kind := op, param := n) && r.m1 == d.m1.(kind := op, param := n)
  {
    var i0 := [Store(0, PendingKind(op)), Store(0, PendingParam(n))];
    var i1 := [Store(1, PendingKind(op)), Store(1, PendingParam(n))];
    PendingMeta(0, d.m0, op, n);
    PendingMeta(1, d.m1, op, n);
    ScopesCopy0(d, e, i0, i1, i1);
  }

  lemma HistoryCopy0(op: OpKind, d: Disk, e: Disk, x: Disk, y: Disk, n: nat)
    requires SameCopy0(d, e) && SameCopy0(x, y) && Clean(x) && Clean(y)
    ensures var r, q := Run(x, HistoryWrites(op, d, n)), Run(y, HistoryWrites(op, e, n));
            && SameCopy0(r, q) && Clean(r) && Clean(q) && Norm(r.m1) == Norm(x.m1) && r.entries == x.entries
  {
    if HistoryWrites(op, d, n) != [] {
      var h := Max(Cap(n, d.entries), MIN_HISTORY_LENGTH);
      var i0, i1 := [Store(0, HistoryLength(h))], [Store(1, HistoryLength(h))];
      assert i1[..0] == [];
      assert MetaEffect(x.m1, i1) == Put(x.m1, HistoryLength(h));
      ScopesCopy0(x, y, i0, i1, i1);
    }
  }

  lemma BodyCopy0(op: OpKind, d: Disk, e: Disk, n: nat)
    requires SameCopy0(d, e)
    ensures var r, q := Run(d, Body(op, d, n)), Run(e, Body(op, e, n));
            && SameCopy0(r, q) && Clean(r) && Clean(q) && r.entries == d.entries
            && Norm(r.m1) == Norm(MetaEffect(d.m1, Inner(op, 1, d.m1, d.m0, d.m0.primary, d.cells1, d.entries, n)))
  {
    var mount, pi := d.m0, d.m0.primary;
    var i0 := Inner(op, 0, d.m0, mount, pi, d.cells0, d.entries, n);
    var i1 := Inner(op, 1, d.m1, mount, pi, d.cells1, d.entries, n);
    var j1 := Inner(op, 1, e.m1, mount, pi, e.cells1, d.entries, n);
    InnerInside(op, 0, d.m0, mount, pi, d.cells0, d.entries, n);
    InnerInside(op, 1, d.m1, mount, pi, d.cells1, d.entries, n);
    InnerInside(op, 1, e.m1, mount, pi, e.cells1, d.entries, n);
    ScopesCopy0(d, e, i0, i1, j1);
    var ws, vs := Scope(0, i0) + Scope(1, i1), Scope(0, i0) + Scope(1, j1);
    RunAppend(d, ws, HistoryWrites(op, d, n));
    RunAppend(e, vs, HistoryWrites(op, e, n));
    HistoryCopy0(op, d, e, Run(d, ws), Run(e, vs), n);
  }

  /** Copy 0 goes through a complete operation as if copy 1 were its mirror image. */
  lemma CompleteMirror(op: OpKind, o: Disk)
    requires AtRest(o)
    ensures var r := Complete(op, o);
            AtRest(r) && SameCopy0(r, Complete(op, Mirror(o))) && r.entries == o.entries
  {
    var n, p := N(op, o), Mirror(o);
    var st := Stamp(op, n);
    PendingCopy0(o, p, op, n);
    var d, e := Run(o, st), Run(p, st);
    BodyCopy0(op, d, e, n);
    ThreeRuns(o, st, Body(op, d, n), Clear());
    ThreeRuns(p, st, Body(op, e, n), Clear());
    PendingCopy0(Run(d, Body(op, d, n)), Run(e, Body(op, e, n)), NoOp, 0);
  }

  lemma ThreeRuns(d: Disk, xs: seq<Write>, ys: seq<Write>, zs: seq<Write>)
    ensures Run(d, xs + ys + zs) == Run(Run(Run(d, xs), ys), zs)
  {
    RunAppend(d, xs + ys, zs);
    RunAppend(d, xs, ys);
  }

  /** And copy 1 goes where its own header takes it, as long as the chunk lists agree. */
  lemma CompleteCopy1(op: OpKind, o: Disk, total: nat)
    requires Callable(op, o, total)
    ensures Norm(Complete(op, o).m1) == Norm(PostMeta(op, o.m1, o.entries, N(op, o)))
  {
    var n := N(op, o);
    var st := Stamp(op, n);
    PendingCopy0(o, o, op, n);
    var d := Run(o, st);
    BodyCopy0(op, d, d, n);
    ThreeRuns(o, st, Body(op, d, n), Clear());
    PendingCopy0(Run(d, Body(op, d, n)), Run(d, Body(op, d, n)), NoOp, 0);
    Copy1Inner(op, o, d, total);
  }

  lemma Copy1Inner(op: OpKind, o: Disk, d: Disk, total: nat)
    requires Callable(op, o, total) && d.entries == o.entries
    requires d.m0 == o.m0.(kind := op, param := N(op, o)) && d.m1 == o.m1.(kind := op, param := N(op, o))
    ensures Norm(MetaEffect(d.m1, Inner(op, 1, d.m1, d.m0, d.m0.primary, d.cells1, d.entries, N(op, o))))
            == Norm(PostMeta(op, o.m1, o.entries, N(op, o)))
  {
    SameTarget(op, o.m0, o.m1);
    StampedPost(op, o.m1, d.m1, total, o.entries);
    InnerPre(op, 1, d.m1, d.m0, d.cells1, d.entries, total);
  }

  lemma SameTarget(op: OpKind, x: Metadata, y: Metadata)
    requires ListsAgree(x, y)
    ensures Target(op, x) == Target(op, y)
  {
  }

  lemma StampedPost(op: OpKind, x: Metadata, y: Metadata, total: nat, e: Pos)
    requires Ready(op, x, total, e) && Norm(x) == Norm(y)
    ensures Ready(op, y, total, e) && Target(op, y) == Target(op, x)
    ensures Norm(PostMeta(op, y, e, Target(op, x))) == Norm(PostMeta(op, x, e, Target(op, x)))
  {
    PhaseFacts(op, x, y, total, e);
  }

  /** A complete operation on copy 0, whatever copy 1 holds. */
  lemma CompleteActive(op: OpKind, o: Disk, total: nat)
    requires AtRest(o) && Ready(op, o.m0, total, o.entries) && (op == Activate || op == Deactivate)
    ensures Complete(op, o).m0.active != o.m0.active
  {
    CompleteMirror(op, o);
    CompleteIs(op, Mirror(o), total);
    PhaseFacts(op, o.m0, o.m0, total, o.entries);
    assert Norm(Complete(op, o).m0).active == PostMeta(op, o.m0, o.entries, N(op, o)).active;
  }

  lemma SwayedNotAtomic(op: OpKind, o: Disk, total: nat)
    requires Callable(op, o, total) && (op == Activate || op == Deactivate) && !SameAnswers(Swayed(o), o)
    ensures !Atomic(op, o, RunTo(op, o, 1, []))
  {
    FirstStore(op, o);
    var r := Recovered(RunTo(op, o, 1, []));
    SwayedAnswers(o, r, o);
    CompleteActive(op, o, total);
    assert !(TimelineActive(r.m0, 1) <==> TimelineActive(Complete(op, o).m0, 1));
  }

  /** Deactivate on copies with the same chunk lists is atomic over all runs exactly when the secondary holds nothing to
      lose and copy 1 answers every query as copy 0 does. */
  lemma DeactivateAtomicExactly(o: Disk, total: nat)
    requires Callable(Deactivate, o, total)
    ensures (forall k, ks :: Atomic(Deactivate, o, RunTo(Deactivate, o, k, ks)))
            <==> SecondaryBlank(o) && SameAnswers(Swayed(o), o)
  {
    if SameAnswers(Swayed(o), o) {
      AnswersAgree(Deactivate, o, total);
      DeactivateAtomicIff(o, total);
    } else {
      SwayedNotAtomic(Deactivate, o, total);
      assert !Atomic(Deactivate, o, RunTo(Deactivate, o, 1, []));
    }
  }
}
