/**
 What recovery leaves behind, in terms of the queries clients can make.
 */
module Outcomes {
  import opened Disk
  import opened Programs
  import opened Arithmetic
  import opened Phases
  import opened PhaseData
  import opened CrashSafety

  // ---------------------------------------------------------------- queries read the window

  /** Inside the live window a query reads the ring; outside it finds nothing. */
  lemma AnswerIs(d: Disk, t: Bit, v: nat)
    requires var r := d.m0.ring(RingOf(d.m0, t)); r.lowerBound <= r.nextVersion <= INVALID_BLOCK_NUM
    ensures var r := d.m0.ring(RingOf(d.m0, t));
            RootOffsetAt(d, t, v) ==
            if TimelineActive(d.m0, t) && r.lowerBound <= v < r.nextVersion then RingRead(d.cells0, r, d.entries, v)
            else INVALID_OFFSET
  {
  }

  ghost predicate Windows(m: Metadata) {
    forall t: Bit :: TimelineActive(m, t) ==>
                       m.ring(RingOf(m, t)).lowerBound <= m.ring(RingOf(m, t)).nextVersion <= INVALID_BLOCK_NUM
  }

  lemma InactiveAnswer(d: Disk, t: Bit, v: nat)
    requires !TimelineActive(d.m0, t)
    ensures RootOffsetAt(d, t, v) == INVALID_OFFSET
  {
  }

  /** Two disks whose headers are in the same phase answer alike exactly when their live
      windows hold the same entries and they agree on the history length. */
  lemma AnswersIff(d: Disk, e: Disk)
    requires Norm(d.m0) == Norm(e.m0) && d.entries == e.entries && Windows(d.m0)
    ensures SameVersions(d, e) <==> DataSame(d.m0, d.entries, e.cells0, d.cells0)
    ensures SameAnswers(d, e) <==>
            DataSame(d.m0, d.entries, e.cells0, d.cells0) && d.m0.historyLength == e.m0.historyLength
  {
    var m := d.m0;
    if DataSame(m, d.entries, e.cells0, d.cells0) {
      forall t: Bit, v: nat ensures RootOffsetAt(d, t, v) == RootOffsetAt(e, t, v) {
        SameAnswer(d, e, t, v);
      }
    }
    if SameVersions(d, e) {
      forall v | m.primaryRing().lowerBound <= v < m.primaryRing().nextVersion
        ensures RingRead(d.cells0, m.primaryRing(), d.entries, v) == RingRead(e.cells0, m.primaryRing(), d.entries, v)
      {
        assert TimelineActive(m, 0);
        AnswerIs(d, 0, v);
        AnswerIs(e, 0, v);
        assert RootOffsetAt(d, 0, v) == RootOffsetAt(e, 0, v);
      }
      if m.active {
        forall v | m.secondaryRing().lowerBound <= v < m.secondaryRing().nextVersion
          ensures RingRead(d.cells0, m.secondaryRing(), d.entries, v)
                  == RingRead(e.cells0, m.secondaryRing(), d.entries, v)
        {
          assert TimelineActive(m, 1);
          AnswerIs(d, 1, v);
          AnswerIs(e, 1, v);
          assert RootOffsetAt(d, 1, v) == RootOffsetAt(e, 1, v);
        }
      }
    }
  }

  lemma SameAnswer(d: Disk, e: Disk, t: Bit, v: nat)
    requires Norm(d.m0) == Norm(e.m0) && d.entries == e.entries && Windows(d.m0)
    requires DataSame(d.m0, d.entries, e.cells0, d.cells0)
    ensures RootOffsetAt(d, t, v) == RootOffsetAt(e, t, v)
  {
    if TimelineActive(d.m0, t) {
      AnswerIs(d, t, v);
      AnswerIs(e, t, v);
    } else {
      InactiveAnswer(d, t, v);
      InactiveAnswer(e, t, v);
    }
  }

  // ---------------------------------------------------------------- the second phase is well formed

  lemma Rotate(a: seq<nat>, b: seq<nat>, total: nat)
    requires Permutation(a + b, total)
    ensures Permutation(b + a, total)
  {
    var x, y := a + b, b + a;
    forall i, j | 0 <= i < j < |y| ensures y[i] != y[j] {
      var i' := if i < |b| then |a| + i else i - |b|;
      var j' := if j < |b| then |a| + j else j - |b|;
      assert x[i'] == y[i] && x[j'] == y[j];
    }
    forall z ensures z in y <==> 1 <= z <= total {
      assert z in y <==> z in x;
    }
  }

  /** Each operation keeps the partition of the chunks and the window of each live ring. */
  lemma PostWellFormed(op: OpKind, m: Metadata, total: nat, e: Pos)
    requires Ready(op, m, total, e)
    ensures WellFormed(PostMeta(op, m, e, Target(op, m)), total, e)
  {
    PhaseFacts(op, m, m, total, e);
    var n := Target(op, m);
    var q := PostMeta(op, m, e, n);
    var p, s := m.primaryRing(), m.secondaryRing();
    var p', s' := q.primaryRing(), q.secondaryRing();
    var was := p.slots[..p.len] + s.slots[..s.len];
    var now := p'.slots[..p'.len] + s'.slots[..s'.len];
    match op
    case Promote =>
      Rotate(p.slots[..p.len], s.slots[..s.len], total);
    case Activate =>
      assert now == was;
    case Deactivate =>
      assert now == was;
      CapAdd(p.len, p.len, e);
  }

  lemma PostWindows(op: OpKind, o: Disk, total: nat, x: Metadata)
    requires Quiescent(op, o, total) && (InPre(o, x) || InPost(op, o, x))
    ensures Windows(x)
  {
    PhaseFacts(op, o.m0, x, total, o.entries);
    PostWellFormed(op, o.m0, total, o.entries);
  }

  // ---------------------------------------------------------------- intact ring data

  /** Recovery will reinstate the state before the operation, with no intent to replay. */
  predicate RolledBack(op: OpKind, o: Disk, d: Disk) {
    InPre(o, View(d, 0)) && View(d, 0).kind == NoOp && View(d, 1).kind == NoOp
  }

  /** The ring entries that the headers to be reinstated rely on are all present. */
  ghost predicate Intact(op: OpKind, o: Disk, d: Disk) {
    if InPost(op, o, View(d, 0)) then DataPost(op, o.m0, o.entries, o.cells0, d.cells0)
    else if RolledBack(op, o, d) then DataSame(o.m0, o.entries, o.cells0, d.cells0)
    else DataPre(op, o.m0, o.entries, o.cells0, d.cells0)
  }

  lemma SameRings(op: OpKind, o: Disk, x: Metadata, total: nat)
    requires Quiescent(op, o, total) && (InPre(o, x) || InPost(op, o, x))
    ensures InPre(o, x) ==> x.primaryRing() == o.m0.primaryRing() && x.secondaryRing() == o.m0.secondaryRing()
                            && x.active == o.m0.active && KeptFrom(op, x, o.entries) == KeptFrom(op, o.m0, o.entries)
                            && PostMeta(op, x, o.entries, N(op, o)).primaryRing()
                               == PostMeta(op, o.m0, o.entries, N(op, o)).primaryRing()
                            && Target(op, x) == N(op, o)
    ensures InPost(op, o, x) ==> x.primaryRing() == PostMeta(op, o.m0, o.entries, N(op, o)).primaryRing()
  {
    PhaseFacts(op, o.m0, x, total, o.entries);
  }

  lemma BodyDataPre(op: OpKind, o: Disk, total: nat, d: Disk)
    requires Quiescent(op, o, total) && Shape(op, o, d) && Clean(d) && InPre(o, d.m0)
    ensures DataPost(op, o.m0, o.entries, o.cells0, CellsEffect(d.cells0, Inner0(op, o, d)))
            <==> DataPre(op, o.m0, o.entries, o.cells0, d.cells0)
  {
    var x, e := d.m0, o.entries;
    PhaseFacts(op, o.m0, x, total, e);
    SameRings(op, o, x, total);
    match op
    case Promote => NoCells(d.cells0, Inner0(op, o, d));
    case Deactivate => DeactivateCells(x, d.cells0, e, total);
    case Activate => ActivateCells(x, d.cells0, e, total);
  }

  /** On a finished copy 0 the body changes no entry the primary ring reads. */
  lemma BodyDataAgain(op: OpKind, o: Disk, total: nat, d: Disk, k: nat)
    requires Quiescent(op, o, total) && Shape(op, o, d) && Clean(d) && InPost(op, o, d.m0)
    requires k <= |Inner0(op, o, d)|
    ensures var after := CellsEffect(d.cells0, Inner0(op, o, d)[..k]);
            && (forall v :: RingRead(after, d.m0.primaryRing(), o.entries, v) ==
                            RingRead(d.cells0, d.m0.primaryRing(), o.entries, v))
            && (op != Activate ==> after == d.cells0)
  {
    var x, e := d.m0, o.entries;
    PhaseFacts(op, o.m0, x, total, e);
    var y := Dressed(o.m0, x);
    PhaseFacts(op, o.m0, y, total, e);
    if op == Activate {
      ActivateRerun(y, x, d.cells0, e, total, k);
    } else {
      if op == Deactivate {
        DeactivatePost(0, y, x, d.cells0, e, total);
      }
      NoCells(d.cells0, Inner0(op, o, d)[..k]);
    }
  }

  /** The body turns the entries a rerun needs into the entries a completed operation
      promises, and keeps the latter. */
  lemma BodyData(op: OpKind, o: Disk, total: nat, d: Disk)
    requires Quiescent(op, o, total) && Shape(op, o, d) && Clean(d)
    ensures var after := CellsEffect(d.cells0, Inner0(op, o, d));
            && (InPre(o, d.m0) ==>
                  (DataPost(op, o.m0, o.entries, o.cells0, after) <==>
                   DataPre(op, o.m0, o.entries, o.cells0, d.cells0)))
            && (InPost(op, o, d.m0) ==>
                  (DataPost(op, o.m0, o.entries, o.cells0, after) <==>
                   DataPost(op, o.m0, o.entries, o.cells0, d.cells0)))
  {
    if InPre(o, d.m0) {
      BodyDataPre(op, o, total, d);
    }
    if InPost(op, o, d.m0) {
      var inner := Inner0(op, o, d);
      BodyDataAgain(op, o, total, d, |inner|);
      assert inner[..|inner|] == inner;
      SameRings(op, o, d.m0, total);
    }
  }

  lemma OnePhase(op: OpKind, o: Disk, x: Metadata, total: nat)
    requires Quiescent(op, o, total)
    ensures !(InPre(o, x) && InPost(op, o, x))
  {
    PhaseFacts(op, o.m0, x, total, o.entries);
  }

  /** The body on untouched ring entries produces all that is promised. */
  lemma FreshBody(op: OpKind, o: Disk, total: nat, d: Disk)
    requires Quiescent(op, o, total) && Shape(op, o, d) && Clean(d) && InPre(o, d.m0) && d.cells0 == o.cells0
    ensures DataPost(op, o.m0, o.entries, o.cells0, CellsEffect(d.cells0, Inner0(op, o, d)))
  {
    BodyDataPre(op, o, total, d);
  }

  /** An uninterrupted operation. */
  lemma CompleteIs(op: OpKind, o: Disk, total: nat)
    requires Quiescent(op, o, total)
    ensures var r := Complete(op, o);
            && Clean(r) && !Intent(r) && InPost(op, o, r.m0) && InPost(op, o, r.m1) && r.entries == o.entries
            && DataPost(op, o.m0, o.entries, o.cells0, r.cells0)
            && CappedLengths(op, o, o, r)
  {
    var st := Stamp(op, N(op, o));
    StampCrash(op, o, total, 0);
    var d := Run(o, st);
    OperationIs(op, o);
    RunAppend(o, st, Program(op, o, d));
    ProgramDone(op, o, total, d);
    FreshBody(op, o, total, d);
  }

  /** Once in the second phase, matching a completed operation is having its entries. */
  lemma PostAgree(op: OpKind, o: Disk, total: nat, x: Metadata, c1: Cells, c2: Cells)
    requires Quiescent(op, o, total) && InPost(op, o, x)
    requires DataPost(op, o.m0, o.entries, o.cells0, c1)
    ensures DataSame(x, o.entries, c1, c2) <==> DataPost(op, o.m0, o.entries, o.cells0, c2)
  {
    if op == Promote {
      PromotedAgree(o, total, x, c1, c2);
    } else {
      ResizedAgree(op, o, total, x, c1, c2);
    }
  }

  lemma PromotedAgree(o: Disk, total: nat, x: Metadata, c1: Cells, c2: Cells)
    requires Quiescent(Promote, o, total) && InPost(Promote, o, x)
    requires DataSame(o.m0, o.entries, o.cells0, c1)
    ensures DataSame(x, o.entries, c1, c2) <==> DataSame(o.m0, o.entries, o.cells0, c2)
  {
    PhaseFacts(Promote, o.m0, x, total, o.entries);
    assert x.primaryRing() == o.m0.secondaryRing() && x.secondaryRing() == o.m0.primaryRing() && x.active
           && o.m0.active;
    AgreeShift(o.m0.primaryRing(), o.entries, o.cells0, c1, c2);
    AgreeShift(o.m0.secondaryRing(), o.entries, o.cells0, c1, c2);
  }

  lemma AgreeShift(r: Ring, e: Pos, c0: Cells, c1: Cells, c2: Cells)
    requires AgreeWindow(c1, c0, r, e)
    ensures AgreeWindow(c2, c1, r, e) <==> AgreeWindow(c2, c0, r, e)
  {
  }

  lemma ResizedAgree(op: OpKind, o: Disk, total: nat, x: Metadata, c1: Cells, c2: Cells)
    requires Quiescent(op, o, total) && InPost(op, o, x) && op != Promote
    requires DataPost(op, o.m0, o.entries, o.cells0, c1)
    ensures DataSame(x, o.entries, c1, c2) <==> DataPost(op, o.m0, o.entries, o.cells0, c2)
  {
    PhaseFacts(op, o.m0, x, total, o.entries);
    SameRings(op, o, x, total);
    if op == Activate {
      assert x.primaryRing().lowerBound == KeptFrom(op, o.m0, o.entries);
    }
  }

  lemma RecoveredIs(op: OpKind, o: Disk, d: Disk)
    requires Shape(op, o, d)
    ensures var d1 := Run(d, Restore(d));
            Recovered(d) == if Intent(d1) then Run(d1, Program(op, o, d1)) else d1
  {
    RestoreDone(d);
    var d1 := Run(d, Restore(d));
    ReplayIs(op, o, d1);
    RunAppend(d, Restore(d), Replay(d1));
  }

  /** The history length that recovery leaves on copy 0: capped if there is a replay. */
  function LengthAfter(op: OpKind, o: Disk, d: Disk): nat {
    if Pending(d) then Capped(op, o, View(d, 0).historyLength) else View(d, 0).historyLength
  }

  /** Recovery will find an intent to replay. */
  predicate Pending(d: Disk) {
    View(d, 0).kind != NoOp || View(d, 1).kind != NoOp
  }

  /** The history lengths recovery leaves: a replay tests copy 0 and caps both copies. */
  predicate LengthsAfter(op: OpKind, o: Disk, d: Disk, r: Disk) {
    && r.m0.historyLength == LengthAfter(op, o, d)
    && r.m1.historyLength == (if Pending(d) && Caps(op, o, View(d, 0).historyLength) then Ceiling(op, o)
                              else View(d, 1).historyLength)
  }

  lemma RecoveryBack(op: OpKind, o: Disk, total: nat, d: Disk)
    requires Quiescent(op, o, total) && Shape(op, o, d) && RolledBack(op, o, d)
    ensures var r := Recovered(d);
            && Clean(r) && !Intent(r) && InPre(o, r.m0) && InPre(o, r.m1) && r.cells0 == d.cells0
            && r.entries == o.entries
            && LengthsAfter(op, o, d, r)
            && (SameVersions(r, o) <==> Intact(op, o, d))
            && (SameAnswers(r, o) <==> Intact(op, o, d) && LengthAfter(op, o, d) == o.m0.historyLength)
  {
    RestoreDone(d);
    RecoveredIs(op, o, d);
    var r := Recovered(d);
    PhaseFacts(op, o.m0, r.m0, total, o.entries);
    PostWindows(op, o, total, r.m0);
    SameRings(op, o, r.m0, total);
    AnswersIff(r, o);
  }

  lemma ForwardDone(op: OpKind, o: Disk, total: nat, d: Disk, d1: Disk)
    requires Quiescent(op, o, total) && Shape(op, o, d) && !RolledBack(op, o, d) && d1 == Run(d, Restore(d))
    ensures var r := Recovered(d);
            && Clean(r) && !Intent(r) && InPost(op, o, r.m0) && InPost(op, o, r.m1) && r.entries == o.entries
            && LengthsAfter(op, o, d, r)
            && (DataPost(op, o.m0, o.entries, o.cells0, r.cells0) <==> Intact(op, o, d))
  {
    RestoreDone(d);
    RecoveredIs(op, o, d);
    OnePhase(op, o, d1.m0, total);
    if Intent(d1) {
      ReplayDone(op, o, total, d1, Run(d1, Program(op, o, d1)));
    }
  }

  lemma ReplayDone(op: OpKind, o: Disk, total: nat, d: Disk, r: Disk)
    requires Quiescent(op, o, total) && Shape(op, o, d) && Clean(d) && Intent(d) && r == Run(d, Program(op, o, d))
    ensures Clean(r) && !Intent(r) && InPost(op, o, r.m0) && InPost(op, o, r.m1) && r.entries == o.entries
    ensures CappedLengths(op, o, d, r)
    ensures InPre(o, d.m0) ==> (DataPost(op, o.m0, o.entries, o.cells0, r.cells0) <==>
                                DataPre(op, o.m0, o.entries, o.cells0, d.cells0))
    ensures InPost(op, o, d.m0) ==> (DataPost(op, o.m0, o.entries, o.cells0, r.cells0) <==>
                                     DataPost(op, o.m0, o.entries, o.cells0, d.cells0))
  {
    ProgramDone(op, o, total, d);
    BodyData(op, o, total, d);
  }

  lemma RecoveryForward(op: OpKind, o: Disk, total: nat, d: Disk)
    requires Quiescent(op, o, total) && Shape(op, o, d) && !RolledBack(op, o, d)
    ensures var r := Recovered(d);
            && Clean(r) && !Intent(r) && InPost(op, o, r.m0) && InPost(op, o, r.m1) && r.entries == o.entries
            && LengthsAfter(op, o, d, r)
            && (SameVersions(r, Complete(op, o)) <==> Intact(op, o, d))
            && (SameAnswers(r, Complete(op, o)) <==>
                Intact(op, o, d) && LengthAfter(op, o, d) == Capped(op, o, o.m0.historyLength))
  {
    ForwardDone(op, o, total, d, Run(d, Restore(d)));
    MatchesComplete(op, o, total, Recovered(d));
  }

  /** Recovery always completes: the flags are lowered, the intent is gone from both copies
      and both are in the same phase.  It answers every query as before the operation, or as
      after a complete one, exactly when the ring entries were intact and the length it
      settles on is the one expected. */
  lemma RecoveryExact(op: OpKind, o: Disk, total: nat, d: Disk)
    requires Quiescent(op, o, total) && Shape(op, o, d)
    ensures var r := Recovered(d);
            && Clean(r) && !Intent(r) && r.entries == o.entries && LengthsAfter(op, o, d, r)
            && (RolledBack(op, o, d) ==>
                  && InPre(o, r.m0) && InPre(o, r.m1) && r.cells0 == d.cells0
                  && (SameVersions(r, o) <==> Intact(op, o, d))
                  && (SameAnswers(r, o) <==> Intact(op, o, d) && LengthAfter(op, o, d) == o.m0.historyLength))
            && (!RolledBack(op, o, d) ==>
                  && InPost(op, o, r.m0) && InPost(op, o, r.m1)
                  && (SameVersions(r, Complete(op, o)) <==> Intact(op, o, d))
                  && (SameAnswers(r, Complete(op, o)) <==>
                      Intact(op, o, d) && LengthAfter(op, o, d) == Capped(op, o, o.m0.historyLength)))
  {
    if RolledBack(op, o, d) {
      RecoveryBack(op, o, total, d);
    } else {
      RecoveryForward(op, o, total, d);
    }
  }

  lemma MatchesComplete(op: OpKind, o: Disk, total: nat, r: Disk)
    requires Quiescent(op, o, total) && InPost(op, o, r.m0) && r.m0.kind == NoOp && r.entries == o.entries
    ensures SameVersions(r, Complete(op, o)) <==> DataPost(op, o.m0, o.entries, o.cells0, r.cells0)
    ensures SameAnswers(r, Complete(op, o)) <==> DataPost(op, o.m0, o.entries, o.cells0, r.cells0)
                                                 && r.m0.historyLength == Capped(op, o, o.m0.historyLength)
  {
    CompleteIs(op, o, total);
    PostWindows(op, o, total, r.m0);
    AnswersIff(r, Complete(op, o));
    PostAgree(op, o, total, r.m0, Complete(op, o).cells0, r.cells0);
  }
}
