/**
 The history length.  It is the only field that an operation tests on copy 0 and then stores
 on both copies in two separate scopes, so it is the only one on which the copies of a
 recovered disk can disagree.
 */
module HistoryLengths {
  import opened Disk
  import opened Programs
  import opened Arithmetic
  import opened Phases
  import opened CrashSafety
  import opened Outcomes
  import opened CrashTheorems
  import opened Lifecycle

  // ---------------------------------------------------------------- one scope

  lemma InsideView(d: Disk, c: Bit, inner: seq<Write>, k: nat)
    requires Clean(d) && Inside(c, inner) && 0 < k < |Scope(c, inner)|
    ensures var e := Crash(d, Scope(c, inner), k);
            View(e, 0) == d.meta(1 - c) && View(e, 1) == d.meta(1 - c)
  {
    ScopeOpen(d, c, inner, k);
  }

  lemma ClosedView(d: Disk, c: Bit, inner: seq<Write>, k: nat)
    requires Clean(d) && Inside(c, inner) && |Scope(c, inner)| <= k
    ensures var e := Crash(d, Scope(c, inner), k);
            && e == Run(d, Scope(c, inner)) && Clean(e)
            && e.meta(c) == MetaEffect(d.meta(c), inner) && e.meta(1 - c) == d.meta(1 - c)
  {
    CrashWhole(d, Scope(c, inner), k);
    ScopeClosed(d, c, inner);
  }

  /** Both copies carry the intent and the length `h`. */
  predicate BothAt(op: OpKind, d: Disk, h: nat) {
    && d.m0.historyLength == h && d.m1.historyLength == h && d.m0.kind == op && d.m1.kind == op
  }

  /** What dirty recovery would reinstate carries the intent, copy 0 with length `h0` and copy 1 with `h1`. */
  predicate ViewsAt(op: OpKind, d: Disk, h0: nat, h1: nat) {
    && View(d, 0).historyLength == h0 && View(d, 1).historyLength == h1
    && View(d, 0).kind == op && View(d, 1).kind == op
  }

  /** The two scopes that store the cap, interrupted: only a crash exactly between them leaves
      the copies with different lengths. */
  lemma CapCrash(op: OpKind, d: Disk, h: nat, cap: nat, k: nat)
    requires Clean(d) && BothAt(op, d, h)
    ensures var hs := Scope(0, [Store(0, HistoryLength(cap))]) + Scope(1, [Store(1, HistoryLength(cap))]);
            && |hs| == 6
            && ViewsAt(op, Crash(d, hs, k), if 3 <= k then cap else h, if 3 < k then cap else h)
            && Clean(Run(d, hs)) && BothAt(op, Run(d, hs), cap)
  {
    var i0, i1 := [Store(0, HistoryLength(cap))], [Store(1, HistoryLength(cap))];
    var s0, s1 := Scope(0, i0), Scope(1, i1);
    HistoryMeta(0, d.m0, cap);
    HistoryMeta(1, d.m1, cap);
    ClosedView(d, 0, i0, 3);
    var d1 := Run(d, s0);
    ClosedView(d1, 1, i1, 3);
    RunAppend(d, s0, s1);
    CrashSplit(d, s0, s1, k);
    if 0 < k < 3 {
      InsideView(d, 0, i0, k);
    } else if 3 < k < 6 {
      InsideView(d1, 1, i1, k - 3);
    } else if 6 <= k {
      ClosedView(d1, 1, i1, k - 3);
    }
  }

  /** Clearing the intent leaves the lengths alone. */
  lemma ClearKeeps(op: OpKind, d: Disk, h: nat, k: nat)
    requires Clean(d) && BothAt(op, d, h)
    ensures var e := Crash(d, Clear(), k);
            View(e, 0).historyLength == h && View(e, 1).historyLength == h
  {
    var i0 := [Store(0, PendingKind(NoOp)), Store(0, PendingParam(0))];
    var i1 := [Store(1, PendingKind(NoOp)), Store(1, PendingParam(0))];
    var s0, s1 := Scope(0, i0), Scope(1, i1);
    PendingMeta(0, d.m0, NoOp, 0);
    PendingMeta(1, d.m1, NoOp, 0);
    ClosedView(d, 0, i0, 4);
    var d1 := Run(d, s0);
    CrashSplit(d, s0, s1, k);
    if 0 < k < 4 {
      InsideView(d, 0, i0, k);
    } else if 4 < k < 8 {
      InsideView(d1, 1, i1, k - 4);
    } else if 8 <= k {
      ClosedView(d1, 1, i1, k - 4);
    }
  }

  // ---------------------------------------------------------------- the whole operation

  /** The intent on both copies, which agree on the history length. */
  predicate Agreed(op: OpKind, o: Disk, d: Disk) {
    Shape(op, o, d) && Clean(d) && BothAt(op, d, o.m0.historyLength) && op != NoOp
  }

  /** The lengths dirty recovery would reinstate, if the cap is stored on copy 0 by the first
      `at` stores. */
  predicate LengthsAt(op: OpKind, o: Disk, e: Disk, at: nat, k: nat) {
    var h := o.m0.historyLength;
    && View(e, 0).historyLength == (if at <= k then Capped(op, o, h) else h)
    && View(e, 1).historyLength == (if at < k then Capped(op, o, h) else h)
    && (Pending(e) || at < k)
  }

  /** Everything after the two body scopes. */
  lemma TailLengths(op: OpKind, o: Disk, d: Disk, hs: seq<Write>, k: nat)
    requires Clean(d) && BothAt(op, d, o.m0.historyLength) && op != NoOp && Capping(op, o, hs, Ceiling(op, o))
    requires hs == [] <==> !Caps(op, o, o.m0.historyLength)
    ensures LengthsAt(op, o, Crash(d, hs + Clear(), k), 3, k)
  {
    var h := o.m0.historyLength;
    CrashSplit(d, hs, Clear(), k);
    if hs == [] {
      assert Run(d, hs) == d;
      ClearKeeps(op, d, h, k);
      if k <= 3 {
        EarlyClear(op, d, k);
      }
    } else {
      CapCrash(op, d, h, Ceiling(op, o), k);
      if |hs| <= k {
        ClearKeeps(op, Run(d, hs), Ceiling(op, o), k - |hs|);
      }
    }
  }

  lemma EarlyClear(op: OpKind, d: Disk, k: nat)
    requires Clean(d) && d.m1.kind == op && op != NoOp && k <= 3
    ensures Pending(Crash(d, Clear(), k))
  {
    var i0 := [Store(0, PendingKind(NoOp)), Store(0, PendingParam(0))];
    PendingMeta(0, d.m0, NoOp, 0);
    CrashFirst(d, Scope(0, i0), PendingScope(1, NoOp, 0), k);
    if k != 0 {
      InsideView(d, 0, i0, k);
    }
  }

  /** Everything after the body on copy 0. */
  lemma FinishLengths(op: OpKind, o: Disk, d: Disk, inner1: seq<Write>, hs: seq<Write>, k: nat)
    requires Clean(d) && BothAt(op, d, o.m0.historyLength) && op != NoOp && Capping(op, o, hs, Ceiling(op, o))
    requires hs == [] <==> !Caps(op, o, o.m0.historyLength)
    requires Inside(1, inner1)
    requires var y := MetaEffect(d.m1, inner1); y.historyLength == o.m0.historyLength && y.kind == op
    ensures LengthsAt(op, o, Crash(d, Finish(inner1, hs), k), |Scope(1, inner1)| + 3, k)
  {
    var s1 := Scope(1, inner1);
    CrashSplit(d, s1, hs + Clear(), k);
    if k < |s1| {
      if k != 0 {
        InsideView(d, 1, inner1, k);
      }
    } else {
      ClosedView(d, 1, inner1, |s1|);
      TailLengths(op, o, Run(d, s1), hs, k - |s1|);
    }
  }

  /** Both copies after the body on copy 0. */
  lemma FirstBody(op: OpKind, o: Disk, total: nat, d: Disk, d1: Disk)
    requires Quiescent(op, o, total) && Agreed(op, o, d) && d1 == Run(d, BodyScope(op, d, d.m0, 0, N(op, o)))
    ensures Clean(d1) && BothAt(op, d1, o.m0.historyLength) && Inside(1, Inner1(op, o, d))
    ensures var y := MetaEffect(d1.m1, Inner1(op, o, d)); y.historyLength == o.m0.historyLength && y.kind == op
  {
    Body0Done(op, o, total, d);
    InnerInside(op, 1, d.m1, d.m0, d.m0.primary, d.cells1, d.entries, N(op, o));
    if op != Promote {
      Roles(op, o, d.m0, total);
    }
    BodyMeta(op, o, total, 1, d.m1, d.m0, d.cells1);
  }

  /** Stores of the body and of the cap on copy 0. */
  function StoresToCap(op: OpKind, o: Disk, d: Disk): nat {
    |BodyScope(op, d, d.m0, 0, N(op, o))| + |BodyScope(op, d, d.m0, 1, N(op, o))| + 3
  }

  lemma ProgramLengths(op: OpKind, o: Disk, total: nat, d: Disk, k: nat)
    requires Quiescent(op, o, total) && Agreed(op, o, d)
    ensures LengthsAt(op, o, Crash(d, Program(op, o, d), k), StoresToCap(op, o, d), k)
  {
    var s0 := BodyScope(op, d, d.m0, 0, N(op, o));
    if k == 0 {
      ProgramCrash(op, o, total, d, 0);
    } else if k < |s0| {
      ProgramEarly(op, o, total, d, k);
    } else {
      ProgramParts(op, o, d, k, s0, Remainder(op, o, d));
      LateLengths(op, o, total, d, Run(d, s0), Crash(d, Program(op, o, d), k), k - |s0|, |s0|);
    }
  }

  lemma LateLengths(op: OpKind, o: Disk, total: nat, d: Disk, d1: Disk, e: Disk, k: nat, n0: nat)
    requires Quiescent(op, o, total) && Agreed(op, o, d) && d1 == Run(d, BodyScope(op, d, d.m0, 0, N(op, o)))
    requires e == Crash(d1, Remainder(op, o, d), k)
    ensures LengthsAt(op, o, e, n0 + |Scope(1, Inner1(op, o, d))| + 3, n0 + k)
  {
    FirstBody(op, o, total, d, d1);
    CappingIs(op, o, d);
    FinishLengths(op, o, d1, Inner1(op, o, d), HistoryWrites(op, d, N(op, o)), k);
  }

  // ---------------------------------------------------------------- one crash

  /** Stores of the whole operation up to and including the cap on copy 0. */
  function Gap(op: OpKind, o: Disk): nat {
    8 + StoresToCap(op, o, Run(o, Stamp(op, N(op, o))))
  }

  lemma StampLengths(op: OpKind, o: Disk, total: nat, k: nat)
    requires Quiescent(op, o, total) && SameLengths(o) && k <= 8
    ensures var e := Crash(o, Operation(op, o), k);
            && Shape(op, o, e) && View(e, 0).historyLength == o.m0.historyLength == View(e, 1).historyLength
            && (4 <= k ==> Pending(e)) && (k < 4 ==> !Pending(e))
  {
    var st := Stamp(op, N(op, o));
    OperationIs(op, o);
    StampCrash(op, o, total, k);
    PhaseFacts(op, o.m0, o.m0, total, o.entries);
    CrashFirst(o, st, Program(op, o, Run(o, st)), k);
    var e := Crash(o, st, k);
    OnePhase(op, o, View(e, 0), total);
    OnePhase(op, o, View(e, 1), total);
  }

  lemma EarlyLengths(op: OpKind, o: Disk, total: nat, k: nat, gap: nat)
    requires Quiescent(op, o, total) && SameLengths(o) && 4 <= k <= 8 < gap
    ensures var e := Crash(o, Operation(op, o), k); Shape(op, o, e) && LengthsAt(op, o, e, gap, k)
  {
    StampLengths(op, o, total, k);
  }

  lemma StampAgreed(op: OpKind, o: Disk, total: nat, d: Disk)
    requires Quiescent(op, o, total) && SameLengths(o) && d == Run(o, Stamp(op, N(op, o)))
    ensures Agreed(op, o, d)
  {
    StampCrash(op, o, total, 8);
  }

  lemma AfterStamp(op: OpKind, o: Disk, d: Disk, k: nat, st: seq<Write>)
    requires st == Stamp(op, N(op, o)) && |st| == 8 <= k && d == Run(o, st)
    ensures Crash(o, Operation(op, o), k) == Crash(d, Program(op, o, d), k - 8)
  {
    OperationIs(op, o);
    CrashSplit(o, st, Program(op, o, d), k);
  }

  lemma BodyLengths(op: OpKind, o: Disk, total: nat, k: nat, d: Disk, e: Disk)
    requires Quiescent(op, o, total) && Agreed(op, o, d) && e == Crash(d, Program(op, o, d), k)
    ensures Shape(op, o, e) && LengthsAt(op, o, e, 8 + StoresToCap(op, o, d), 8 + k)
  {
    ProgramCrash(op, o, total, d, k);
    ProgramLengths(op, o, total, d, k);
  }

  lemma StampedLengths(op: OpKind, o: Disk, total: nat, k: nat, st: seq<Write>, d: Disk)
    requires Quiescent(op, o, total) && SameLengths(o) && 8 <= k && st == Stamp(op, N(op, o)) && d == Run(o, st)
    ensures var e := Crash(o, Operation(op, o), k);
            Shape(op, o, e) && LengthsAt(op, o, e, 8 + StoresToCap(op, o, d), k)
  {
    StampAgreed(op, o, total, d);
    AfterStamp(op, o, d, k, st);
    BodyLengths(op, o, total, k - 8, d, Crash(d, Program(op, o, d), k - 8));
  }

  /** Where the lengths stand after a crash at any store of the operation. */
  lemma CrashLengths(op: OpKind, o: Disk, total: nat, k: nat)
    requires Quiescent(op, o, total) && SameLengths(o) && 4 <= k
    ensures var e := Crash(o, Operation(op, o), k); Shape(op, o, e) && LengthsAt(op, o, e, Gap(op, o), k)
  {
    if k <= 8 {
      EarlyLengths(op, o, total, k, Gap(op, o));
    } else {
      StampedLengths(op, o, total, k, Stamp(op, N(op, o)), Run(o, Stamp(op, N(op, o))));
    }
  }

  /** The cap is needed, and replaying the operation would not repeat it. */
  predicate CapOnce(op: OpKind, o: Disk) {
    Caps(op, o, o.m0.historyLength) && MIN_HISTORY_LENGTH <= RoomAfter(op, o)
  }

  /** One crash and one recovery: copy 0 reports the length it had or the one a complete
      operation leaves, and the copies agree unless a cap was needed and the crash fell
      exactly between storing it on copy 0 and storing it on copy 1. */
  lemma LengthsAgreeIff(op: OpKind, o: Disk, total: nat, k: nat)
    requires Quiescent(op, o, total) && SameLengths(o)
    ensures var r := Recovered(Crash(o, Operation(op, o), k));
            && r.m0.historyLength == (if k < 4 then o.m0.historyLength else Complete(op, o).m0.historyLength)
            && (SameLengths(r) <==> !(CapOnce(op, o) && k == Gap(op, o)))
  {
    var e := Crash(o, Operation(op, o), k);
    CompleteIs(op, o, total);
    if k < 4 {
      StampLengths(op, o, total, k);
    } else {
      CrashLengths(op, o, total, k);
    }
    RecoveryExact(op, o, total, e);
  }

  // ---------------------------------------------------------------- any number of crashes

  /** Over every run: copy 0 reports the length the operation found or its cap.  The copies
      agree afterwards exactly when dirty recovery would reinstate equal lengths or the replay
      stores the cap on both, and always when no cap was needed. */
  lemma AnyRunLengths(op: OpKind, o: Disk, total: nat, k: nat, ks: seq<nat>)
    requires Quiescent(op, o, total) && SameLengths(o)
    ensures var d := RunTo(op, o, k, ks);
            var r := Recovered(d);
            && r.m0.historyLength in {o.m0.historyLength, Capped(op, o, o.m0.historyLength)}
            && (SameLengths(r) <==> View(d, 0).historyLength == View(d, 1).historyLength
                                    || (Pending(d) && Caps(op, o, View(d, 0).historyLength)))
            && (!Caps(op, o, o.m0.historyLength) ==> SameLengths(r) && r.m0.historyLength == o.m0.historyLength)
  {
    RunShape(op, o, total, k, ks);
    RecoveryExact(op, o, total, RunTo(op, o, k, ks));
  }

  /** What dirty recovery would reinstate carries an intent, or the same length twice. */
  predicate Even(e: Disk) {
    Pending(e) || View(e, 0).historyLength == View(e, 1).historyLength
  }

  lemma EvenScope(d: Disk, c: Bit, inner: seq<Write>, k: nat)
    requires Clean(d) && Even(d) && Inside(c, inner) && k < |Scope(c, inner)|
    ensures Even(Crash(d, Scope(c, inner), k))
  {
    if k > 0 {
      InsideView(d, c, inner, k);
    }
  }

  lemma EvenScopes(d: Disk, i0: seq<Write>, i1: seq<Write>, k: nat)
    requires Clean(d) && Even(d) && Inside(0, i0) && Inside(1, i1)
    requires Even(Run(d, Scope(0, i0))) && Even(Run(d, Scope(0, i0) + Scope(1, i1)))
    ensures Even(Crash(d, Scope(0, i0) + Scope(1, i1), k))
  {
    var s0, s1 := Scope(0, i0), Scope(1, i1);
    CrashSplit(d, s0, s1, k);
    if k < |s0| {
      EvenScope(d, 0, i0, k);
    } else if k < |s0| + |s1| {
      ClosedView(d, 0, i0, |s0|);
      EvenScope(Run(d, s0), 1, i1, k - |s0|);
    } else {
      CrashWhole(d, s0 + s1, k);
    }
  }

  lemma EvenCap(d: Disk, cap: nat, k: nat)
    requires Clean(d) && Intent(d)
    ensures var hs := Scope(0, [Store(0, HistoryLength(cap))]) + Scope(1, [Store(1, HistoryLength(cap))]);
            var r := Run(d, hs);
            Even(Crash(d, hs, k)) && Clean(r) && r.m0.historyLength == cap == r.m1.historyLength
  {
    var i0, i1 := [Store(0, HistoryLength(cap))], [Store(1, HistoryLength(cap))];
    HistoryMeta(0, d.m0, cap);
    HistoryMeta(1, d.m1, cap);
    ClosedView(d, 0, i0, 3);
    ClosedView(Run(d, Scope(0, i0)), 1, i1, 3);
    RunAppend(d, Scope(0, i0), Scope(1, i1));
    EvenScopes(d, i0, i1, k);
  }

  lemma EvenClear(d: Disk, k: nat)
    requires Clean(d) && d.m0.historyLength == d.m1.historyLength
    ensures Even(Crash(d, Clear(), k))
  {
    var i0 := [Store(0, PendingKind(NoOp)), Store(0, PendingParam(0))];
    var i1 := [Store(1, PendingKind(NoOp)), Store(1, PendingParam(0))];
    PendingMeta(0, d.m0, NoOp, 0);
    PendingMeta(1, d.m1, NoOp, 0);
    ClosedView(d, 0, i0, 4);
    ClosedView(Run(d, Scope(0, i0)), 1, i1, 4);
    RunAppend(d, Scope(0, i0), Scope(1, i1));
    EvenScopes(d, i0, i1, k);
  }

  lemma EvenTail(d: Disk, cap: nat, hs: seq<Write>, k: nat)
    requires Clean(d) && Intent(d)
    requires hs == Scope(0, [Store(0, HistoryLength(cap))]) + Scope(1, [Store(1, HistoryLength(cap))])
    ensures Even(Crash(d, hs + Clear(), k))
  {
    CrashSplit(d, hs, Clear(), k);
    EvenCap(d, cap, k);
    if |hs| <= k {
      EvenClear(Run(d, hs), k - |hs|);
    }
  }

  /** Every length the run can come across is capped again by a replay. */
  predicate AlwaysCaps(op: OpKind, o: Disk) {
    SameLengths(o) && Caps(op, o, o.m0.historyLength) && RoomAfter(op, o) < MIN_HISTORY_LENGTH
  }

  /** The cap is due, whatever the run has done so far. */
  lemma AlwaysDue(op: OpKind, o: Disk, d: Disk)
    requires AlwaysCaps(op, o) && Shape(op, o, d) && Clean(d)
    ensures var cap := Ceiling(op, o);
            HistoryWrites(op, d, N(op, o))
            == Scope(0, [Store(0, HistoryLength(cap))]) + Scope(1, [Store(1, HistoryLength(cap))])
  {
    CappingIs(op, o, d);
  }

  /** Both bodies done: the intent is still there. */
  lemma SecondBody(op: OpKind, o: Disk, total: nat, d: Disk, d1: Disk)
    requires Quiescent(op, o, total) && Shape(op, o, d) && Clean(d) && Intent(d)
    requires d1 == Run(d, BodyScope(op, d, d.m0, 0, N(op, o)))
    ensures Clean(d1) && Intent(d1) && Inside(1, Inner1(op, o, d))
    ensures var r := Run(d1, Scope(1, Inner1(op, o, d))); Clean(r) && Intent(r)
  {
    var inner1 := Inner1(op, o, d);
    Body0Done(op, o, total, d);
    InnerInside(op, 1, d.m1, d.m0, d.m0.primary, d.cells1, d.entries, N(op, o));
    if op != Promote {
      Roles(op, o, d.m0, total);
    }
    BodyMeta(op, o, total, 1, d.m1, d.m0, d.cells1);
    ScopeClosed(d1, 1, inner1);
  }

  lemma EvenFinish(d1: Disk, inner1: seq<Write>, hs: seq<Write>, cap: nat, k: nat)
    requires Clean(d1) && Intent(d1) && Inside(1, inner1)
    requires var r := Run(d1, Scope(1, inner1)); Clean(r) && Intent(r)
    requires hs == Scope(0, [Store(0, HistoryLength(cap))]) + Scope(1, [Store(1, HistoryLength(cap))])
    ensures Even(Crash(d1, Finish(inner1, hs), k))
  {
    var s1 := Scope(1, inner1);
    CrashSplit(d1, s1, hs + Clear(), k);
    if k < |s1| {
      EvenScope(d1, 1, inner1, k);
    } else {
      EvenTail(Run(d1, s1), cap, hs, k - |s1|);
    }
  }

  lemma EvenProgram(op: OpKind, o: Disk, total: nat, d: Disk, k: nat)
    requires Quiescent(op, o, total) && AlwaysCaps(op, o) && Shape(op, o, d) && Clean(d) && Intent(d)
    ensures Even(Crash(d, Program(op, o, d), k))
  {
    var s0 := BodyScope(op, d, d.m0, 0, N(op, o));
    ProgramParts(op, o, d, k, s0, Remainder(op, o, d));
    if k < |s0| {
      EvenFirst(op, o, d, k);
    } else {
      SecondBody(op, o, total, d, Run(d, s0));
      AlwaysDue(op, o, d);
      EvenFinish(Run(d, s0), Inner1(op, o, d), HistoryWrites(op, d, N(op, o)), Ceiling(op, o), k - |s0|);
    }
  }

  lemma EvenFirst(op: OpKind, o: Disk, d: Disk, k: nat)
    requires Clean(d) && Intent(d) && d.entries == o.entries && k < |BodyScope(op, d, d.m0, 0, N(op, o))|
    ensures Even(Crash(d, BodyScope(op, d, d.m0, 0, N(op, o)), k))
  {
    InnerInside(op, 0, d.m0, d.m0, d.m0.primary, d.cells0, d.entries, N(op, o));
    EvenScope(d, 0, Inner0(op, o, d), k);
  }

  lemma {:induction false} EvenRun(op: OpKind, o: Disk, total: nat, k: nat, ks: seq<nat>)
    requires Quiescent(op, o, total) && AlwaysCaps(op, o)
    ensures Even(RunTo(op, o, k, ks))
  {
    if ks == [] {
      if k <= 8 {
        StampLengths(op, o, total, k);
      } else {
        var st := Stamp(op, N(op, o));
        var d := Run(o, st);
        StampCrash(op, o, total, 8);
        AfterStamp(op, o, d, k, st);
        EvenProgram(op, o, total, d, k - 8);
      }
    } else {
      var n := |ks| - 1;
      var d := RunTo(op, o, k, ks[..n]);
      EvenRun(op, o, total, k, ks[..n]);
      RunShape(op, o, total, k, ks[..n]);
      var late, d1, j := RecoverySplit(op, o, d, ks[n]);
      if late {
        EvenProgram(op, o, total, d1, j);
      }
    }
  }

  /** Over all runs, with any number of crashes: the copies always agree on the length afterwards exactly when the
      operation needs no cap, or a replay would repeat it. */
  lemma AllRunsAgreeIff(op: OpKind, o: Disk, total: nat)
    requires Quiescent(op, o, total) && SameLengths(o)
    ensures (forall k, ks :: SameLengths(Recovered(RunTo(op, o, k, ks)))) <==> !CapOnce(op, o)
  {
    if CapOnce(op, o) {
      LengthsAgreeIff(op, o, total, Gap(op, o));
      assert !SameLengths(Recovered(RunTo(op, o, Gap(op, o), [])));
    } else {
      forall k, ks ensures SameLengths(Recovered(RunTo(op, o, k, ks))) {
        AnyRunLengths(op, o, total, k, ks);
        if Caps(op, o, o.m0.historyLength) {
          EvenRun(op, o, total, k, ks);
          RunShape(op, o, total, k, ks);
        }
      }
    }
  }

  // ---------------------------------------------------------------- what disagreeing copies lead to

  /** An operation started on copies that disagree, dying with its first store, replaces the
      length copy 0 reported by copy 1's and changes nothing else. */
  lemma RollsBackLength(op: OpKind, o: Disk, total: nat)
    requires Quiescent(op, o, total)
    ensures var r := Recovered(RunTo(op, o, 1, []));
            SameVersions(r, o) && r.m0.historyLength == o.m1.historyLength && (SameAnswers(r, o) <==> SameLengths(o))
  {
    FirstScopeLength(op, o, total);
    UntouchedRun(op, o, total, 1, []);
    PhaseFacts(op, o.m0, o.m0, total, o.entries);
    RecoveryExact(op, o, total, RunTo(op, o, 1, []));
    OnePhase(op, o, View(RunTo(op, o, 1, []), 0), total);
  }

  /** Activation dies between the two stores of its cap; the next operation dies with its first
      store.  The history length is then above the capacity of the primary ring. */
  lemma LengthAboveCapacity(o: Disk, total: nat)
    requires Quiescent(Activate, o, total) && SameLengths(o) && CapOnce(Activate, o)
    ensures var d := Recovered(RunTo(Activate, o, Gap(Activate, o), []));
            && Quiescent(Promote, d, total) && d.m0.historyLength == Capacity(d, 0)
            && var r := Recovered(RunTo(Promote, d, 1, []));
               SameVersions(r, d) && r.m0.historyLength == o.m0.historyLength > Capacity(r, 0)
  {
    var k := Gap(Activate, o);
    var e := RunTo(Activate, o, k, []);
    CrashLengths(Activate, o, total, k);
    RecoveryExact(Activate, o, total, e);
    OnePhase(Activate, o, View(e, 0), total);
    PostWellFormed(Activate, o.m0, total, o.entries);
    var d := Recovered(e);
    ActivatedDisk(o, total, e, d);
    RollsBackLength(Promote, d, total);
  }

  lemma ActivatedDisk(o: Disk, total: nat, e: Disk, d: Disk)
    requires Quiescent(Activate, o, total) && InPost(Activate, o, d.m0) && InPost(Activate, o, d.m1)
    requires Clean(d) && !Intent(d) && d.entries == o.entries
    ensures Quiescent(Promote, d, total) && Capacity(d, 0) == RoomAfter(Activate, o)
  {
    PhaseFacts(Activate, o.m0, d.m0, total, o.entries);
    PostWellFormed(Activate, o.m0, total, o.entries);
  }

  /** This happens to every new pool whose half ring holds the minimum history. */
  lemma NewPoolLength(total: nat, e: Pos)
    requires PowerOfTwo(total) && 2 <= total <= SLOTS && MIN_HISTORY_LENGTH <= Cap(total / 2, e)
    ensures var o := FreshPool(total, e);
            var d := Recovered(RunTo(Activate, o, Gap(Activate, o), []));
            var r := Recovered(RunTo(Promote, d, 1, []));
            && Quiescent(Activate, o, total) && Quiescent(Promote, d, total)
            && r.m0.historyLength == Cap(total, e) > Capacity(r, 0)
  {
    var o := FreshPool(total, e);
    FreshSound(total, e);
    PhaseFacts(Activate, o.m0, o.m0, total, e);
    CapAdd(total / 2, total / 2, e);
    LengthAboveCapacity(o, total);
  }
}
