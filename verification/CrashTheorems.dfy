/**
 The crash-safety results for each operation, over every run.
 */
module CrashTheorems {
  import opened Disk
  import opened Programs
  import opened Phases
  import opened PhaseData
  import opened CrashSafety
  import opened Outcomes

  // ---------------------------------------------------------------- deactivate and promote

  /** The primary's entries as the operation found them are still there, and a copy 0 that is
      through has everything it promises. */
  ghost predicate Durable(op: OpKind, o: Disk, d: Disk) {
    && DataPre(op, o.m0, o.entries, o.cells0, d.cells0)
    && (InPost(op, o, View(d, 0)) ==> DataPost(op, o.m0, o.entries, o.cells0, d.cells0))
  }

  lemma PrefixKeeps(op: OpKind, o: Disk, total: nat, d: Disk, k: nat)
    requires Quiescent(op, o, total) && Shape(op, o, d) && Clean(d) && op != Activate && k <= |Inner0(op, o, d)|
    requires DataPre(op, o.m0, o.entries, o.cells0, d.cells0)
    ensures DataPre(op, o.m0, o.entries, o.cells0, CellsEffect(d.cells0, Inner0(op, o, d)[..k]))
  {
    PhaseFacts(op, o.m0, d.m0, total, o.entries);
    if op == Promote {
      NoCells(d.cells0, Inner0(op, o, d)[..k]);
    } else if InPre(o, d.m0) {
      SameRings(op, o, d.m0, total);
      DeactivatePrefix(d.m0, d.cells0, o.entries, total, k);
    } else {
      BodyDataAgain(op, o, total, d, k);
    }
  }

  lemma DurableEarly(op: OpKind, o: Disk, total: nat, d: Disk, k: nat)
    requires Quiescent(op, o, total) && Shape(op, o, d) && Clean(d) && Intent(d) && op != Activate && Durable(op, o, d)
    requires 0 < k < |BodyScope(op, d, d.m0, 0, N(op, o))|
    ensures Durable(op, o, Crash(d, Program(op, o, d), k))
  {
    ProgramEarly(op, o, total, d, k);
    PrefixKeeps(op, o, total, d, k - 1);
    if InPost(op, o, d.m1) {
      BodyDataAgain(op, o, total, d, k - 1);
    }
  }

  lemma DurableLate(op: OpKind, o: Disk, total: nat, d: Disk, k: nat)
    requires Quiescent(op, o, total) && Shape(op, o, d) && Clean(d) && Intent(d) && op != Activate && Durable(op, o, d)
    requires |BodyScope(op, d, d.m0, 0, N(op, o))| <= k
    ensures Durable(op, o, Crash(d, Program(op, o, d), k))
  {
    ProgramLate(op, o, total, d, k);
    BodyData(op, o, total, d);
    var inner := Inner0(op, o, d);
    PrefixKeeps(op, o, total, d, |inner|);
    Whole(inner);
  }

  lemma Whole(ws: seq<Write>)
    ensures ws[..|ws|] == ws
  {
  }

  lemma DurableProgram(op: OpKind, o: Disk, total: nat, d: Disk, k: nat)
    requires Quiescent(op, o, total) && Shape(op, o, d) && Clean(d) && Intent(d) && op != Activate && Durable(op, o, d)
    ensures Durable(op, o, Crash(d, Program(op, o, d), k))
  {
    if k >= |BodyScope(op, d, d.m0, 0, N(op, o))| {
      DurableLate(op, o, total, d, k);
    } else if k != 0 {
      DurableEarly(op, o, total, d, k);
    } else {
      ProgramCrash(op, o, total, d, 0);
    }
  }

  lemma DurableRecovery(op: OpKind, o: Disk, total: nat, d: Disk, k: nat)
    requires Quiescent(op, o, total) && Shape(op, o, d) && op != Activate && Durable(op, o, d)
    ensures Durable(op, o, Crash(d, Recovery(d), k))
  {
    var late, d1, j := RecoverySplit(op, o, d, k);
    if late {
      DurableProgram(op, o, total, d1, j);
    }
  }

  lemma DurableOperation(op: OpKind, o: Disk, total: nat, k: nat)
    requires Quiescent(op, o, total) && op != Activate
    ensures Durable(op, o, Crash(o, Operation(op, o), k))
  {
    StampCrash(op, o, total, k);
    PhaseFacts(op, o.m0, o.m0, total, o.entries);
    var late, d, j := OperationSplit(op, o, k);
    if late {
      DurableProgram(op, o, total, d, j);
    }
  }

  function RunTo(op: OpKind, o: Disk, k: nat, ks: seq<nat>): Disk {
    AfterCrashes(Crash(o, Operation(op, o), k), ks)
  }

  lemma {:induction false} DurableRun(op: OpKind, o: Disk, total: nat, k: nat, ks: seq<nat>)
    requires Quiescent(op, o, total) && op != Activate
    ensures Durable(op, o, RunTo(op, o, k, ks))
  {
    if ks == [] {
      DurableOperation(op, o, total, k);
    } else {
      var rest := ks[..|ks| - 1];
      DurableRun(op, o, total, k, rest);
      RunShape(op, o, total, k, rest);
      DurableRecovery(op, o, total, RunTo(op, o, k, rest), ks[|ks| - 1]);
    }
  }

  /** However often deactivate or promote dies, recovery keeps every primary version at its
      old offset if the intent was rolled back, and otherwise answers every query about
      versions as a complete operation does.  Copies that agreed on the history length still
      do, and then every other query is answered so too. */
  lemma DeactivatePromoteSafe(op: OpKind, o: Disk, total: nat, k: nat, ks: seq<nat>)
    requires Quiescent(op, o, total) && (op == Deactivate || op == Promote)
    ensures var d := RunTo(op, o, k, ks);
            var r := Recovered(d);
            && Clean(r) && r.m0.kind == NoOp && r.m1.kind == NoOp
            && (RolledBack(op, o, d) ==> forall v :: RootOffsetAt(r, 0, v) == RootOffsetAt(o, 0, v))
            && (RolledBack(op, o, d) && op == Promote ==>
                  && SameVersions(r, o) && (SameLengths(o) ==> SameAnswers(r, o))
                  && r.m0.primary == r.m1.primary == o.m0.primary)
            && (!RolledBack(op, o, d) ==>
                  SameVersions(r, Complete(op, o)) && (SameLengths(o) ==> SameAnswers(r, Complete(op, o))))
            && (SameLengths(o) ==> SameLengths(r))
            && (!RolledBack(op, o, d) && op == Promote ==> r.m0.primary == r.m1.primary == 1 - o.m0.primary)
  {
    RunShape(op, o, total, k, ks);
    DurableRun(op, o, total, k, ks);
    var d := RunTo(op, o, k, ks);
    var r := Recovered(d);
    RecoveryExact(op, o, total, d);
    PhaseFacts(op, o.m0, View(d, 0), total, o.entries);
    if RolledBack(op, o, d) {
      forall v ensures RootOffsetAt(r, 0, v) == RootOffsetAt(o, 0, v) {
        PrimaryAnswer(op, o, total, r, v);
      }
    }
  }

  lemma PrimaryAnswer(op: OpKind, o: Disk, total: nat, r: Disk, v: nat)
    requires Quiescent(op, o, total) && op != Activate && InPre(o, r.m0) && r.entries == o.entries && r.m0.kind == NoOp
    requires DataPre(op, o.m0, o.entries, o.cells0, r.cells0)
    ensures RootOffsetAt(r, 0, v) == RootOffsetAt(o, 0, v)
  {
    PhaseFacts(op, o.m0, r.m0, total, o.entries);
    SameRings(op, o, r.m0, total);
    AnswerIs(r, 0, v);
    AnswerIs(o, 0, v);
  }

  // ---------------------------------------------------------------- once the intent is on both copies

  /** Copy 1, as recovery would leave it, carries the intent or is through. */
  predicate Committed(op: OpKind, o: Disk, d: Disk) {
    Stamped(op, o, View(d, 1)) || InPost(op, o, View(d, 1))
  }

  lemma CommittedProgram(op: OpKind, o: Disk, total: nat, d: Disk, k: nat)
    requires Quiescent(op, o, total) && Shape(op, o, d) && Clean(d) && Intent(d) && Committed(op, o, d)
    ensures Committed(op, o, Crash(d, Program(op, o, d), k))
  {
    if 0 < k < |BodyScope(op, d, d.m0, 0, N(op, o))| {
      ProgramEarly(op, o, total, d, k);
    } else if k == 0 {
      ProgramCrash(op, o, total, d, 0);
    } else {
      CommittedLate(op, o, total, d, k);
    }
  }

  lemma CommittedLate(op: OpKind, o: Disk, total: nat, d: Disk, k: nat)
    requires Quiescent(op, o, total) && Shape(op, o, d) && Clean(d) && Intent(d) && Committed(op, o, d)
    requires |BodyScope(op, d, d.m0, 0, N(op, o))| <= k
    ensures Committed(op, o, Crash(d, Program(op, o, d), k))
  {
    var s0 := BodyScope(op, d, d.m0, 0, N(op, o));
    ProgramParts(op, o, d, k, s0, Remainder(op, o, d));
    Body0Done(op, o, total, d);
    SecondCopy(op, o, total, d, Run(d, s0));
    CappingIs(op, o, d);
    CommittedRest(op, o, Run(d, s0), Inner1(op, o, d), HistoryWrites(op, d, N(op, o)), Ceiling(op, o), k - |s0|);
  }

  /** Everything after the body on copy 0, on a disk whose copy 1 is stamped or through. */
  lemma CommittedRest(op: OpKind, o: Disk, d: Disk, inner1: seq<Write>, hs: seq<Write>, h: nat, k: nat)
    requires Shape(op, o, d) && Clean(d) && InPost(op, o, d.m0) && KeepsPost(op, o, d, 1, inner1)
    requires Committed(op, o, d)
    requires Capping(op, o, hs, h)
    ensures Committed(op, o, Crash(d, Finish(inner1, hs), k))
  {
    var s1, rest := Scope(1, inner1), hs + Clear();
    CrashSplit(d, s1, rest, k);
    if k < |s1| {
      if k != 0 {
        ScopeOpen(d, 1, inner1, k);
      }
    } else {
      PostScopeDone(op, o, d, 1, inner1);
      BothThrough(op, o, Run(d, s1), hs, h, k - |s1|);
    }
  }

  /** With both copies through, whichever one is reinstated is through. */
  lemma BothThrough(op: OpKind, o: Disk, d: Disk, hs: seq<Write>, h: nat, k: nat)
    requires Shape(op, o, d) && Clean(d) && InPost(op, o, d.m0) && InPost(op, o, d.m1)
    requires Capping(op, o, hs, h)
    ensures InPost(op, o, View(Crash(d, hs + Clear(), k), 1))
  {
    HistoryCrash(op, o, d, hs, h, 0);
    var d1 := Run(d, hs);
    if k <= |hs| {
      CrashFirst(d, hs, Clear(), k);
      if hs != [] {
        HistoryMeta(0, d.m0, h);
        HistoryMeta(1, d.m1, h);
        TwoScopes(op, o, d, [Store(0, HistoryLength(h))], [Store(1, HistoryLength(h))], k);
      }
    } else {
      CrashSecond(d, hs, Clear(), k);
      PendingMeta(0, d1.m0, NoOp, 0);
      PendingMeta(1, d1.m1, NoOp, 0);
      TwoScopes(op, o, d1, [Store(0, PendingKind(NoOp)), Store(0, PendingParam(0))],
                [Store(1, PendingKind(NoOp)), Store(1, PendingParam(0))], k - |hs|);
    }
  }

  lemma TwoScopes(op: OpKind, o: Disk, d: Disk, i0: seq<Write>, i1: seq<Write>, k: nat)
    requires Shape(op, o, d) && Clean(d) && InPost(op, o, d.m0) && InPost(op, o, d.m1)
    requires KeepsPost(op, o, d, 0, i0) && Inside(1, i1) && InPost(op, o, MetaEffect(d.m1, i1))
    ensures InPost(op, o, View(Crash(d, Scope(0, i0) + Scope(1, i1), k), 1))
  {
    var s0, s1 := Scope(0, i0), Scope(1, i1);
    PostScopeDone(op, o, d, 0, i0);
    var d1 := Run(d, s0);
    if k < |s0| {
      CrashFirst(d, s0, s1, k);
      if k != 0 {
        ScopeOpen(d, 0, i0, k);
      }
    } else {
      CrashSecond(d, s0, s1, k);
      if 0 < k - |s0| < |s1| {
        ScopeOpen(d1, 1, i1, k - |s0|);
      } else if k != |s0| {
        CrashWhole(d1, s1, k - |s0|);
        ScopeClosed(d1, 1, i1);
      }
    }
  }

  lemma CommittedRecovery(op: OpKind, o: Disk, total: nat, d: Disk, k: nat)
    requires Quiescent(op, o, total) && Shape(op, o, d) && Committed(op, o, d)
    ensures Committed(op, o, Crash(d, Recovery(d), k))
  {
    var late, d1, j := RecoverySplit(op, o, d, k);
    if late {
      CommittedProgram(op, o, total, d1, j);
    }
  }

  /** Every crash of the operation itself past the stamp on copy 0 is committed, except one
      that falls exactly between the two stamps. */
  lemma CommittedOperation(op: OpKind, o: Disk, total: nat, k: nat)
    requires Quiescent(op, o, total) && 4 < k
    ensures Committed(op, o, Crash(o, Operation(op, o), k))
  {
    var late, d, j := OperationSplit(op, o, k);
    if late {
      StampedCommitted(op, o, total, d);
      CommittedProgram(op, o, total, d, j);
    } else if k < 8 {
      StampSecond(op, o, total, k);
    } else {
      CrashWhole(o, Stamp(op, N(op, o)), k);
      StampedCommitted(op, o, total, Run(o, Stamp(op, N(op, o))));
    }
  }

  lemma StampedCommitted(op: OpKind, o: Disk, total: nat, d: Disk)
    requires Quiescent(op, o, total) && d == Run(o, Stamp(op, N(op, o)))
    ensures Shape(op, o, d) && Clean(d) && Intent(d) && Committed(op, o, d)
  {
    StampCrash(op, o, total, 8);
    PhaseFacts(op, o.m0, o.m0, total, o.entries);
  }

  lemma StampSecond(op: OpKind, o: Disk, total: nat, k: nat)
    requires Quiescent(op, o, total) && 4 < k < 8
    ensures Stamped(op, o, View(Crash(o, Stamp(op, N(op, o)), k), 1))
  {
    var n := N(op, o);
    var i0, i1 := [Store(0, PendingKind(op)), Store(0, PendingParam(n))],
      [Store(1, PendingKind(op)), Store(1, PendingParam(n))];
    PendingMeta(0, o.m0, op, n);
    PendingMeta(1, o.m1, op, n);
    ScopeClosed(o, 0, i0);
    CrashSecond(o, Scope(0, i0), Scope(1, i1), k);
    ScopeOpen(Run(o, Scope(0, i0)), 1, i1, k - 4);
  }

  lemma {:induction false} CommittedRun(op: OpKind, o: Disk, total: nat, k: nat, ks: seq<nat>)
    requires Quiescent(op, o, total) && 4 < k
    ensures Committed(op, o, RunTo(op, o, k, ks))
  {
    if ks == [] {
      CommittedOperation(op, o, total, k);
    } else {
      var rest := ks[..|ks| - 1];
      CommittedRun(op, o, total, k, rest);
      RunShape(op, o, total, k, rest);
      CommittedRecovery(op, o, total, RunTo(op, o, k, rest), ks[|ks| - 1]);
    }
  }

  /** Before the stamp on copy 0 is closed the operation has touched nothing. */
  lemma {:induction false} UntouchedRun(op: OpKind, o: Disk, total: nat, k: nat, ks: seq<nat>)
    requires Quiescent(op, o, total) && k < 4
    ensures var d := RunTo(op, o, k, ks);
            Shape(op, o, d) && RolledBack(op, o, d) && d.cells0 == o.cells0
  {
    if ks == [] {
      OperationIs(op, o);
      StampCrash(op, o, total, k);
      CrashFirst(o, Stamp(op, N(op, o)), Program(op, o, Run(o, Stamp(op, N(op, o)))), k);
    } else {
      var rest := ks[..|ks| - 1];
      UntouchedRun(op, o, total, k, rest);
      var d := RunTo(op, o, k, rest);
      RestoreDone(d);
      ReplayIs(op, o, Run(d, Restore(d)));
      RestoreCrash(op, o, d, ks[|ks| - 1]);
      assert Recovery(d) == Restore(d);
    }
  }

  /** A first crash before the fourth store leaves every query as it was; one after the fourth
      store leads to the complete operation. */
  ghost predicate AllOrNothing(op: OpKind, o: Disk, k: nat, ks: seq<nat>) {
    var r := Recovered(RunTo(op, o, k, ks));
    (k < 4 ==> SameAnswers(r, o)) && (4 < k ==> SameAnswers(r, Complete(op, o)))
  }

  /** Any number of crashes of deactivate or promote, at any stores, also during replay. */
  lemma AnyNumberOfCrashes(op: OpKind, o: Disk, total: nat, k: nat, ks: seq<nat>)
    requires Quiescent(op, o, total) && (op == Deactivate || op == Promote)
    ensures var r := Recovered(RunTo(op, o, k, ks));
            (k < 4 ==> SameVersions(r, o)) && (4 < k ==> SameVersions(r, Complete(op, o)))
    ensures SameLengths(o) ==> AllOrNothing(op, o, k, ks)
  {
    PhaseFacts(op, o.m0, o.m0, total, o.entries);
    if k < 4 {
      UntouchedRun(op, o, total, k, ks);
      RecoveryExact(op, o, total, RunTo(op, o, k, ks));
    } else if 4 < k {
      RunShape(op, o, total, k, ks);
      CommittedRun(op, o, total, k, ks);
      DeactivatePromoteSafe(op, o, total, k, ks);
      PhaseFacts(op, o.m0, View(RunTo(op, o, k, ks), 0), total, o.entries);
    }
  }

  /** An operation that dies with copy 0 dirty in its first scope leaves copy 1's history length on both. */
  lemma FirstScopeLength(op: OpKind, o: Disk, total: nat)
    requires Quiescent(op, o, total)
    ensures var d := RunTo(op, o, 1, []);
            Shape(op, o, d) && RolledBack(op, o, d) && Recovered(d).m0.historyLength == o.m1.historyLength
  {
    OperationIs(op, o);
    StampCrash(op, o, total, 1);
    CrashFirst(o, Stamp(op, N(op, o)), Program(op, o, Run(o, Stamp(op, N(op, o)))), 1);
    RecoveryExact(op, o, total, RunTo(op, o, 1, []));
  }

  /** The main result for deactivate and promote: all runs are all-or-nothing for every query
      exactly when the copies agreed on the history length. */
  lemma AnyNumberOfCrashesIff(op: OpKind, o: Disk, total: nat)
    requires Quiescent(op, o, total) && (op == Deactivate || op == Promote)
    ensures (forall k, ks :: AllOrNothing(op, o, k, ks)) <==> SameLengths(o)
  {
    if SameLengths(o) {
      forall k, ks ensures AllOrNothing(op, o, k, ks) {
        AnyNumberOfCrashes(op, o, total, k, ks);
      }
    } else {
      FirstScopeLength(op, o, total);
      assert !AllOrNothing(op, o, 1, []);
    }
  }
}
