/**
 Crash safety of activate, deactivate and promote.

 A run is one operation that dies after any number of its stores, followed by any number of
 opens that die during recovery.  `Shape` holds of the disk at every point of every run:
 the two copies are never dirty together, and what dirty recovery would reinstate is one of
 a few combinations of the header before and the header after the operation.
 */
module CrashSafety {
  import opened Disk
  import opened Programs
  import opened Phases

  /** A disk on which the public operation may start. */
  ghost predicate Quiescent(op: OpKind, o: Disk, total: nat) {
    && !o.dirty0 && !o.dirty1 && o.m0.kind == NoOp && o.m1.kind == NoOp
    && Norm(o.m0) == Norm(o.m1) && Ready(op, o.m0, total, o.entries)
  }

  function N(op: OpKind, o: Disk): nat {
    Target(op, o.m0)
  }

  predicate InPre(o: Disk, x: Metadata) {
    Norm(x) == Norm(o.m0)
  }

  predicate InPost(op: OpKind, o: Disk, x: Metadata) {
    Norm(x) == Norm(PostMeta(op, o.m0, o.entries, N(op, o)))
  }

  predicate Stamped(op: OpKind, o: Disk, x: Metadata) {
    x.kind == op && x.param == N(op, o)
  }

  /** Capacity of the ring that the operation leaves to the primary timeline. */
  function RoomAfter(op: OpKind, o: Disk): nat {
    Cap(N(op, o), o.entries)
  }

  /** The history length activation imposes when it finds a longer one. */
  function Ceiling(op: OpKind, o: Disk): nat {
    Max(RoomAfter(op, o), MIN_HISTORY_LENGTH)
  }

  predicate Caps(op: OpKind, o: Disk, h: nat) {
    op == Activate && h > RoomAfter(op, o)
  }

  function Capped(op: OpKind, o: Disk, h: nat): nat {
    if Caps(op, o, h) then Ceiling(op, o) else h
  }

  predicate SameLengths(o: Disk) {
    o.m0.historyLength == o.m1.historyLength
  }

  /** Where a history length can come from: one of the copies the operation found, or its own cap. */
  predicate KnownLength(op: OpKind, o: Disk, x: Metadata) {
    || x.historyLength == o.m0.historyLength || x.historyLength == o.m1.historyLength
    || (InPost(op, o, x) && x.historyLength == Ceiling(op, o)
        && (Caps(op, o, o.m0.historyLength) || Caps(op, o, o.m1.historyLength)))
  }

  predicate InFamily(op: OpKind, o: Disk, x: Metadata) {
    (InPre(o, x) || InPost(op, o, x)) && (x.kind == NoOp || Stamped(op, o, x)) && KnownLength(op, o, x)
  }

  /** Copy 0 leads, and an unfinished pair still carries the intent. */
  predicate Structure(op: OpKind, o: Disk, x0: Metadata, x1: Metadata) {
    && InFamily(op, o, x0) && InFamily(op, o, x1)
    && (InPost(op, o, x1) ==> InPost(op, o, x0))
    && (x0.kind == NoOp && x1.kind == NoOp ==> (InPost(op, o, x0) <==> InPost(op, o, x1)))
  }

  /** The headers as dirty recovery would leave them. */
  function View(d: Disk, c: Bit): Metadata {
    if d.dirty0 then d.m1 else if d.dirty1 then d.m0 else d.meta(c)
  }

  predicate Shape(op: OpKind, o: Disk, d: Disk) {
    && d.entries == o.entries && !(d.dirty0 && d.dirty1)
    && Structure(op, o, View(d, 0), View(d, 1))
  }

  predicate Clean(d: Disk) {
    !d.dirty0 && !d.dirty1
  }

  predicate Intent(d: Disk) {
    d.m0.kind != NoOp || d.m1.kind != NoOp
  }

  function Inner0(op: OpKind, o: Disk, d: Disk): seq<Write> {
    Inner(op, 0, d.m0, d.m0, d.m0.primary, d.cells0, d.entries, N(op, o))
  }

  // ---------------------------------------------------------------- dirty restore

  /** Copying a header over a dirty one, interrupted: still dirty, and nothing else has changed. */
  lemma RestoreInside(d: Disk, c: Bit, k: nat)
    requires 0 < k < |Scope(c, CopyInner(c, d.meta(1 - c)))|
    ensures var e := Crash(d, Scope(c, CopyInner(c, d.meta(1 - c))), k);
            e.dirty(c) && e.dirty(1 - c) == d.dirty(1 - c) && e.meta(1 - c) == d.meta(1 - c)
            && e.cells0 == d.cells0 && e.entries == d.entries
  {
    var inner := CopyInner(c, d.meta(1 - c));
    CopyInnerEffect(c, d.meta(1 - c), d.meta(c));
    ScopeOpen(d, c, inner, k);
    NoCells(d.cells(c), inner[..k - 1]);
  }

  lemma RestoreWhole(d: Disk, c: Bit)
    ensures var e := Run(d, Scope(c, CopyInner(c, d.meta(1 - c))));
            !e.dirty(c) && e.dirty(1 - c) == d.dirty(1 - c) && e.meta(c) == e.meta(1 - c) == d.meta(1 - c)
            && e.cells0 == d.cells0 && e.entries == d.entries
  {
    var inner := CopyInner(c, d.meta(1 - c));
    CopyInnerEffect(c, d.meta(1 - c), d.meta(c));
    ScopeClosed(d, c, inner);
  }

  /** Recovery would reinstate the same headers over the same entries. */
  predicate SameView(op: OpKind, o: Disk, d: Disk, e: Disk) {
    Shape(op, o, e) && View(e, 0) == View(d, 0) && View(e, 1) == View(d, 1) && e.cells0 == d.cells0
  }

  lemma RestoreCrash(op: OpKind, o: Disk, d: Disk, k: nat)
    requires Shape(op, o, d)
    ensures SameView(op, o, d, Crash(d, Restore(d), k))
  {
    if !Clean(d) {
      var c: Bit := if d.dirty0 then 0 else 1;
      var scope := Scope(c, CopyInner(c, d.meta(1 - c)));
      assert Restore(d) == scope;
      if 0 < k < |scope| {
        RestoreInside(d, c, k);
      } else if k != 0 {
        CrashWhole(d, scope, k);
        RestoreWhole(d, c);
      }
    }
  }

  lemma RestoreDone(d: Disk)
    requires !(d.dirty0 && d.dirty1)
    ensures var r := Run(d, Restore(d));
            Clean(r) && r.m0 == View(d, 0) && r.m1 == View(d, 1) && r.cells0 == d.cells0 && r.entries == d.entries
  {
    if !Clean(d) {
      RestoreWhole(d, if d.dirty0 then 0 else 1);
    }
  }

  // ---------------------------------------------------------------- the body on one copy

  /** Whatever phase a copy is in, the body takes it to the second. */
  lemma BodyMeta(op: OpKind, o: Disk, total: nat, c: Bit, x: Metadata, mount: Metadata, cells: Cells)
    requires Quiescent(op, o, total) && InFamily(op, o, x)
    requires op == Promote || mount.primary == o.m0.primary
    requires InPre(o, x) ==> mount.primary == o.m0.primary || op == Promote
    ensures var y := MetaEffect(x, Inner(op, c, x, mount, mount.primary, cells, o.entries, N(op, o)));
            InPost(op, o, y) && y.kind == x.kind && y.param == x.param && y.historyLength == x.historyLength
            && (InPost(op, o, x) ==> y == x)
  {
    PhaseFacts(op, o.m0, x, total, o.entries);
    if InPre(o, x) {
      if op == Promote {
        assert Inner(op, c, x, mount, mount.primary, cells, o.entries, N(op, o))
            == Inner(op, c, x, mount, x.primary, cells, o.entries, N(op, o));
      }
      InnerPre(op, c, x, mount, cells, o.entries, total);
    } else {
      PhaseFacts(op, o.m0, Dressed(o.m0, x), total, o.entries);
      InnerPost(op, c, Dressed(o.m0, x), mount, mount.primary, cells, o.entries, total);
    }
  }

  lemma Roles(op: OpKind, o: Disk, x: Metadata, total: nat)
    requires Quiescent(op, o, total) && InFamily(op, o, x) && op != Promote
    ensures x.primary == o.m0.primary
  {
    PhaseFacts(op, o.m0, x, total, o.entries);
  }

  /** The body's scope on copy 0.  A crash inside it leaves copy 0 dirty and its ring
      entries at a prefix of the body; nothing else has changed. */
  lemma Body0Crash(op: OpKind, o: Disk, total: nat, d: Disk, k: nat)
    requires Quiescent(op, o, total) && Shape(op, o, d) && Clean(d) && Intent(d)
    requires 0 < k < |BodyScope(op, d, d.m0, 0, N(op, o))|
    ensures var e := Crash(d, BodyScope(op, d, d.m0, 0, N(op, o)), k);
            Shape(op, o, e) && e.dirty0 && !e.dirty1 && e.m1 == d.m1
            && k - 1 <= |Inner0(op, o, d)| && e.cells0 == CellsEffect(d.cells0, Inner0(op, o, d)[..k - 1])
  {
    InnerInside(op, 0, d.m0, d.m0, d.m0.primary, d.cells0, d.entries, N(op, o));
    ScopeOpen(d, 0, Inner0(op, o, d), k);
  }

  lemma Body0Done(op: OpKind, o: Disk, total: nat, d: Disk)
    requires Quiescent(op, o, total) && Shape(op, o, d) && Clean(d) && Intent(d)
    ensures var r := Run(d, BodyScope(op, d, d.m0, 0, N(op, o)));
            && Clean(r) && Shape(op, o, r) && Intent(r) && InPost(op, o, r.m0) && r.m0.kind == d.m0.kind
            && r.m0.param == d.m0.param
            && r.m1 == d.m1 && r.cells1 == d.cells1
            && r.cells0 == CellsEffect(d.cells0, Inner0(op, o, d)) && r.m0.historyLength == d.m0.historyLength
            && (InPost(op, o, d.m0) ==> r.m0 == d.m0)
  {
    InnerInside(op, 0, d.m0, d.m0, d.m0.primary, d.cells0, d.entries, N(op, o));
    ScopeClosed(d, 0, Inner0(op, o, d));
    if op != Promote {
      Roles(op, o, d.m0, total);
    }
    BodyMeta(op, o, total, 0, d.m0, d.m0, d.cells0);
  }

  // ---------------------------------------------------------------- once copy 0 is through

  /** A scope that leaves a finished copy 0 finished. */
  predicate KeepsPost(op: OpKind, o: Disk, d: Disk, c: Bit, inner: seq<Write>) {
    && Inside(c, inner)
    && (c == 0 ==> HeaderOnly(c, inner) && InPost(op, o, d.m1))
    && InPost(op, o, MetaEffect(d.meta(c), inner)) && InFamily(op, o, MetaEffect(d.meta(c), inner))
  }

  lemma PostScope(op: OpKind, o: Disk, d: Disk, c: Bit, inner: seq<Write>, k: nat)
    requires Shape(op, o, d) && Clean(d) && InPost(op, o, d.m0) && KeepsPost(op, o, d, c, inner)
    ensures var e := Crash(d, Scope(c, inner), k);
            Shape(op, o, e) && InPost(op, o, View(e, 0)) && e.cells0 == d.cells0
  {
    if 0 < k < |Scope(c, inner)| {
      ScopeOpen(d, c, inner, k);
      if c == 0 {
        NoCells(d.cells0, inner[..k - 1]);
      }
    } else if k != 0 {
      CrashWhole(d, Scope(c, inner), k);
      PostScopeDone(op, o, d, c, inner);
    }
  }

  lemma PostScopeDone(op: OpKind, o: Disk, d: Disk, c: Bit, inner: seq<Write>)
    requires Shape(op, o, d) && Clean(d) && InPost(op, o, d.m0) && KeepsPost(op, o, d, c, inner)
    ensures var r := Run(d, Scope(c, inner));
            && Shape(op, o, r) && Clean(r) && InPost(op, o, r.m0) && r.cells0 == d.cells0
            && r.meta(c) == MetaEffect(d.meta(c), inner) && r.meta(1 - c) == d.meta(1 - c)
  {
    ScopeClosed(d, c, inner);
    if c == 0 {
      NoCells(d.cells0, inner);
    }
  }

  // ---------------------------------------------------------------- intent stamps

  lemma PendingMeta(c: Bit, m: Metadata, op: OpKind, n: nat)
    ensures var inner := [Store(c, PendingKind(op)), Store(c, PendingParam(n))];
            MetaEffect(m, inner) == m.(kind := op, param := n) && HeaderOnly(c, inner) && Inside(c, inner)
            && Norm(m.(kind := op, param := n)) == Norm(m)
  {
    Steps2(m, [Store(c, PendingKind(op)), Store(c, PendingParam(n))]);
  }

  /** Clearing the intent, with both copies through. */
  lemma ClearCrash(op: OpKind, o: Disk, d: Disk, k: nat)
    requires Shape(op, o, d) && Clean(d) && InPost(op, o, d.m0) && InPost(op, o, d.m1)
    ensures var e := Crash(d, Clear(), k);
            Shape(op, o, e) && InPost(op, o, View(e, 0)) && e.cells0 == d.cells0
    ensures var r := Run(d, Clear());
            Clean(r) && !Intent(r) && InPost(op, o, r.m0) && InPost(op, o, r.m1) && r.cells0 == d.cells0
            && r.m0.historyLength == d.m0.historyLength && r.m1.historyLength == d.m1.historyLength
  {
    var s0, s1 := PendingScope(0, NoOp, 0), PendingScope(1, NoOp, 0);
    var i0, i1 := [Store(0, PendingKind(NoOp)), Store(0, PendingParam(0))],
      [Store(1, PendingKind(NoOp)), Store(1, PendingParam(0))];
    PendingMeta(0, d.m0, NoOp, 0);
    PendingMeta(1, d.m1, NoOp, 0);
    PostScopeDone(op, o, d, 0, i0);
    var d1 := Run(d, s0);
    PostScopeDone(op, o, d1, 1, i1);
    RunAppend(d, s0, s1);
    if k <= |s0| {
      CrashFirst(d, s0, s1, k);
      PostScope(op, o, d, 0, i0, k);
    } else {
      CrashSecond(d, s0, s1, k);
      PostScope(op, o, d1, 1, i1, k - |s0|);
    }
  }

  lemma HistoryMeta(c: Bit, m: Metadata, h: nat)
    ensures var inner := [Store(c, HistoryLength(h))];
            MetaEffect(m, inner) == m.(historyLength := h) && HeaderOnly(c, inner) && Inside(c, inner)
            && Norm(m.(historyLength := h)) == Norm(m)
  {
    var inner := [Store(c, HistoryLength(h))];
    assert inner[..0] == [];
  }

  /** Nothing, or the two scopes that store the cap `h`. */
  predicate Capping(op: OpKind, o: Disk, hs: seq<Write>, h: nat) {
    || hs == []
    || (&& hs == Scope(0, [Store(0, HistoryLength(h))]) + Scope(1, [Store(1, HistoryLength(h))])
        && h == Ceiling(op, o) && (Caps(op, o, o.m0.historyLength) || Caps(op, o, o.m1.historyLength)))
  }

  lemma CappingIs(op: OpKind, o: Disk, d: Disk)
    requires InFamily(op, o, d.m0) && d.entries == o.entries
    ensures Capping(op, o, HistoryWrites(op, d, N(op, o)), Ceiling(op, o))
    ensures HistoryWrites(op, d, N(op, o)) == [] <==> !Caps(op, o, d.m0.historyLength)
  {
  }

  /** Capping the history length, with both copies through. */
  lemma HistoryCrash(op: OpKind, o: Disk, d: Disk, hs: seq<Write>, h: nat, k: nat)
    requires Shape(op, o, d) && Clean(d) && InPost(op, o, d.m0) && InPost(op, o, d.m1)
    requires Capping(op, o, hs, h)
    ensures var e := Crash(d, hs, k);
            Shape(op, o, e) && InPost(op, o, View(e, 0)) && e.cells0 == d.cells0
    ensures var r := Run(d, hs);
            Clean(r) && Shape(op, o, r) && InPost(op, o, r.m0) && InPost(op, o, r.m1) && r.cells0 == d.cells0
            && r.m0.historyLength == (if hs == [] then d.m0.historyLength else h)
            && r.m1.historyLength == (if hs == [] then d.m1.historyLength else h)
            && r.m0.kind == d.m0.kind && r.m1.kind == d.m1.kind
  {
    if hs != [] {
      var s0, s1 := Scope(0, [Store(0, HistoryLength(h))]), Scope(1, [Store(1, HistoryLength(h))]);
      HistoryMeta(0, d.m0, h);
      HistoryMeta(1, d.m1, h);
      PostScopeDone(op, o, d, 0, [Store(0, HistoryLength(h))]);
      var d1 := Run(d, s0);
      PostScopeDone(op, o, d1, 1, [Store(1, HistoryLength(h))]);
      RunAppend(d, s0, s1);
      if k <= |s0| {
        CrashFirst(d, s0, s1, k);
        PostScope(op, o, d, 0, [Store(0, HistoryLength(h))], k);
      } else {
        CrashSecond(d, s0, s1, k);
        PostScope(op, o, d1, 1, [Store(1, HistoryLength(h))], k - |s0|);
      }
    }
  }

  // ---------------------------------------------------------------- whole programs

  function Finish(inner1: seq<Write>, hs: seq<Write>): seq<Write> {
    Scope(1, inner1) + (hs + Clear())
  }

  lemma FinishDone(op: OpKind, o: Disk, d: Disk, inner1: seq<Write>, hs: seq<Write>, h: nat)
    requires Shape(op, o, d) && Clean(d) && InPost(op, o, d.m0) && KeepsPost(op, o, d, 1, inner1)
    requires Capping(op, o, hs, h)
    ensures var r := Run(d, Finish(inner1, hs));
            && Clean(r) && !Intent(r) && InPost(op, o, r.m0) && InPost(op, o, r.m1) && r.cells0 == d.cells0
            && r.m0.historyLength == (if hs == [] then d.m0.historyLength else h)
            && r.m1.historyLength == (if hs == [] then MetaEffect(d.m1, inner1).historyLength else h)
  {
    var s1 := Scope(1, inner1);
    PostScopeDone(op, o, d, 1, inner1);
    var d1 := Run(d, s1);
    HistoryCrash(op, o, d1, hs, h, 0);
    ClearCrash(op, o, Run(d1, hs), 0);
    RunAppend(d, s1, hs + Clear());
    RunAppend(d1, hs, Clear());
  }

  lemma TailCrash(op: OpKind, o: Disk, d: Disk, hs: seq<Write>, h: nat, k: nat)
    requires Shape(op, o, d) && Clean(d) && InPost(op, o, d.m0) && InPost(op, o, d.m1) && Capping(op, o, hs, h)
    ensures var e := Crash(d, hs + Clear(), k);
            Shape(op, o, e) && InPost(op, o, View(e, 0)) && e.cells0 == d.cells0
  {
    CrashSplit(d, hs, Clear(), k);
    if k <= |hs| {
      HistoryCrash(op, o, d, hs, h, k);
    } else {
      HistoryCrash(op, o, d, hs, h, 0);
      ClearCrash(op, o, Run(d, hs), k - |hs|);
    }
  }

  /** Everything after the body on copy 0. */
  lemma FinishCrash(op: OpKind, o: Disk, d: Disk, inner1: seq<Write>, hs: seq<Write>, h: nat, k: nat)
    requires Shape(op, o, d) && Clean(d) && InPost(op, o, d.m0) && KeepsPost(op, o, d, 1, inner1)
    requires Capping(op, o, hs, h)
    ensures var e := Crash(d, Finish(inner1, hs), k);
            Shape(op, o, e) && InPost(op, o, View(e, 0)) && e.cells0 == d.cells0
  {
    var s1 := Scope(1, inner1);
    CrashSplit(d, s1, hs + Clear(), k);
    if k <= |s1| {
      PostScope(op, o, d, 1, inner1, k);
    } else {
      PostScopeDone(op, o, d, 1, inner1);
      TailCrash(op, o, Run(d, s1), hs, h, k - |s1|);
    }
  }

  function Inner1(op: OpKind, o: Disk, d: Disk): seq<Write> {
    Inner(op, 1, d.m1, d.m0, d.m0.primary, d.cells1, d.entries, N(op, o))
  }

  function Program(op: OpKind, o: Disk, d: Disk): seq<Write> {
    BodyScope(op, d, d.m0, 0, N(op, o)) + Remainder(op, o, d)
  }

  lemma Regroup(a: seq<Write>, b: seq<Write>, c: seq<Write>, z: seq<Write>)
    ensures a + b + c + z == a + (b + (c + z))
    ensures a + b + z == a + (b + z)
  {
  }

  lemma ProgramIs(op: OpKind, o: Disk, d: Disk)
    ensures Body(op, d, N(op, o)) + Clear() == Program(op, o, d)
  {
    Regroup(BodyScope(op, d, d.m0, 0, N(op, o)), BodyScope(op, d, d.m0, 1, N(op, o)), HistoryWrites(op, d, N(op, o)),
            Clear());
  }

  lemma SecondCopy(op: OpKind, o: Disk, total: nat, d: Disk, d1: Disk)
    requires Quiescent(op, o, total) && Shape(op, o, d) && Clean(d) && Intent(d)
    requires d1 == Run(d, BodyScope(op, d, d.m0, 0, N(op, o)))
    ensures KeepsPost(op, o, d1, 1, Inner1(op, o, d))
    ensures MetaEffect(d1.m1, Inner1(op, o, d)).historyLength == d.m1.historyLength
  {
    Body0Done(op, o, total, d);
    InnerInside(op, 1, d.m1, d.m0, d.m0.primary, d.cells1, d.entries, N(op, o));
    if op != Promote {
      Roles(op, o, d.m0, total);
    }
    BodyMeta(op, o, total, 1, d.m1, d.m0, d.cells1);
  }

  function Remainder(op: OpKind, o: Disk, d: Disk): seq<Write> {
    Finish(Inner1(op, o, d), HistoryWrites(op, d, N(op, o)))
  }

  /** The test is on copy 0; when it holds both copies get the cap. */
  predicate CappedLengths(op: OpKind, o: Disk, d: Disk, r: Disk) {
    && r.m0.historyLength == Capped(op, o, d.m0.historyLength)
    && r.m1.historyLength == if Caps(op, o, d.m0.historyLength) then Ceiling(op, o) else d.m1.historyLength
  }

  lemma RemainderCrash(op: OpKind, o: Disk, total: nat, d: Disk, k: nat)
    requires Quiescent(op, o, total) && Shape(op, o, d) && Clean(d) && Intent(d)
    ensures var d1 := Run(d, BodyScope(op, d, d.m0, 0, N(op, o)));
            var e := Crash(d1, Remainder(op, o, d), k);
            Shape(op, o, e) && InPost(op, o, View(e, 0)) && e.cells0 == d1.cells0
    ensures var d1 := Run(d, BodyScope(op, d, d.m0, 0, N(op, o)));
            var r := Run(d1, Remainder(op, o, d));
            Clean(r) && !Intent(r) && InPost(op, o, r.m0) && InPost(op, o, r.m1) && r.cells0 == d1.cells0
            && CappedLengths(op, o, d, r)
  {
    var hs := HistoryWrites(op, d, N(op, o));
    CappingIs(op, o, d);
    Body0Done(op, o, total, d);
    var d1 := Run(d, BodyScope(op, d, d.m0, 0, N(op, o)));
    SecondCopy(op, o, total, d, d1);
    FinishCrash(op, o, d1, Inner1(op, o, d), hs, Ceiling(op, o), k);
    FinishDone(op, o, d1, Inner1(op, o, d), hs, Ceiling(op, o));
  }

  lemma ProgramParts(op: OpKind, o: Disk, d: Disk, k: nat, s0: seq<Write>, rest: seq<Write>)
    requires s0 == BodyScope(op, d, d.m0, 0, N(op, o)) && rest == Remainder(op, o, d)
    ensures k <= |s0| ==> Crash(d, Program(op, o, d), k) == Crash(d, s0, k)
    ensures |s0| <= k ==> Crash(d, Program(op, o, d), k) == Crash(Run(d, s0), rest, k - |s0|)
  {
    CrashSplit(d, s0, rest, k);
  }

  /** The program crashed inside the body's scope on copy 0. */
  lemma ProgramEarly(op: OpKind, o: Disk, total: nat, d: Disk, k: nat)
    requires Quiescent(op, o, total) && Shape(op, o, d) && Clean(d) && Intent(d)
    requires 0 < k < |BodyScope(op, d, d.m0, 0, N(op, o))|
    ensures var e := Crash(d, Program(op, o, d), k);
            && Shape(op, o, e) && e.dirty0 && e.m1 == d.m1 && k - 1 <= |Inner0(op, o, d)|
            && e.cells0 == CellsEffect(d.cells0, Inner0(op, o, d)[..k - 1])
  {
    ProgramParts(op, o, d, k, BodyScope(op, d, d.m0, 0, N(op, o)), Remainder(op, o, d));
    Body0Crash(op, o, total, d, k);
  }

  /** The program crashed after that scope. */
  lemma ProgramLate(op: OpKind, o: Disk, total: nat, d: Disk, k: nat)
    requires Quiescent(op, o, total) && Shape(op, o, d) && Clean(d) && Intent(d)
    requires |BodyScope(op, d, d.m0, 0, N(op, o))| <= k
    ensures var e := Crash(d, Program(op, o, d), k);
            Shape(op, o, e) && InPost(op, o, View(e, 0)) && e.cells0 == CellsEffect(d.cells0, Inner0(op, o, d))
  {
    var s0 := BodyScope(op, d, d.m0, 0, N(op, o));
    ProgramParts(op, o, d, k, s0, Remainder(op, o, d));
    LateIs(op, o, total, d, Run(d, s0), k - |s0|);
  }

  lemma LateIs(op: OpKind, o: Disk, total: nat, d: Disk, d1: Disk, k: nat)
    requires Quiescent(op, o, total) && Shape(op, o, d) && Clean(d) && Intent(d)
    requires d1 == Run(d, BodyScope(op, d, d.m0, 0, N(op, o)))
    ensures var e := Crash(d1, Remainder(op, o, d), k);
            Shape(op, o, e) && InPost(op, o, View(e, 0)) && e.cells0 == CellsEffect(d.cells0, Inner0(op, o, d))
  {
    Body0Done(op, o, total, d);
    RemainderCrash(op, o, total, d, k);
  }

  lemma ProgramCrash(op: OpKind, o: Disk, total: nat, d: Disk, k: nat)
    requires Quiescent(op, o, total) && Shape(op, o, d) && Clean(d) && Intent(d)
    ensures Shape(op, o, Crash(d, Program(op, o, d), k))
    ensures k == 0 ==> Crash(d, Program(op, o, d), k) == d
  {
    if k >= |BodyScope(op, d, d.m0, 0, N(op, o))| {
      ProgramLate(op, o, total, d, k);
    } else if k != 0 {
      ProgramEarly(op, o, total, d, k);
    }
  }

  lemma ProgramDone(op: OpKind, o: Disk, total: nat, d: Disk)
    requires Quiescent(op, o, total) && Shape(op, o, d) && Clean(d) && Intent(d)
    ensures var r := Run(d, Program(op, o, d));
            && Clean(r) && !Intent(r) && InPost(op, o, r.m0) && InPost(op, o, r.m1) && r.entries == o.entries
            && r.cells0 == CellsEffect(d.cells0, Inner0(op, o, d))
            && CappedLengths(op, o, d, r)
  {
    var s0 := BodyScope(op, d, d.m0, 0, N(op, o));
    RunAppend(d, s0, Remainder(op, o, d));
    Body0Done(op, o, total, d);
    RemainderCrash(op, o, total, d, 0);
    SameEntries(d, Program(op, o, d));
  }

  lemma {:induction false} SameEntries(d: Disk, ws: seq<Write>)
    ensures Run(d, ws).entries == d.entries
  {
    if ws != [] {
      SameEntries(d, ws[..|ws| - 1]);
    }
  }

  /** The intent stamp.  It becomes effective when copy 0's scope closes. */
  lemma StampCrash(op: OpKind, o: Disk, total: nat, k: nat)
    requires Quiescent(op, o, total)
    ensures var e := Crash(o, Stamp(op, N(op, o)), k);
            && Shape(op, o, e) && e.cells0 == o.cells0 && InPre(o, View(e, 0)) && InPre(o, View(e, 1))
            && (k < 4 ==> View(e, 0).kind == NoOp && View(e, 1).kind == NoOp)
            && (0 < k < 4 ==> View(e, 0) == o.m1)
            && (4 <= k ==> Stamped(op, o, View(e, 0)))
    ensures var r := Run(o, Stamp(op, N(op, o)));
            && Clean(r) && Shape(op, o, r) && r.cells0 == o.cells0
            && r.m0 == o.m0.(kind := op, param := N(op, o)) && r.m1 == o.m1.(kind := op, param := N(op, o))
    ensures |Stamp(op, N(op, o))| == 8
  {
    var n := N(op, o);
    PhaseFacts(op, o.m0, o.m0, total, o.entries);
    var i0, i1 := [Store(0, PendingKind(op)), Store(0, PendingParam(n))],
      [Store(1, PendingKind(op)), Store(1, PendingParam(n))];
    var s0, s1 := PendingScope(0, op, n), PendingScope(1, op, n);
    PendingMeta(0, o.m0, op, n);
    PendingMeta(1, o.m1, op, n);
    ScopeClosed(o, 0, i0);
    NoCells(o.cells0, i0);
    var d1 := Run(o, s0);
    ScopeClosed(d1, 1, i1);
    RunAppend(o, s0, s1);
    if k < 4 {
      CrashFirst(o, s0, s1, k);
      if k != 0 {
        ScopeOpen(o, 0, i0, k);
        NoCells(o.cells0, i0[..k - 1]);
      }
    } else {
      CrashSecond(o, s0, s1, k);
      if 4 < k < 8 {
        ScopeOpen(d1, 1, i1, k - 4);
      } else if k >= 8 {
        CrashWhole(d1, s1, k - 4);
      }
    }
  }

  // ---------------------------------------------------------------- the invariant over all runs

  /** Opening a disk of the right shape replays the stamped operation or nothing. */
  lemma ReplayIs(op: OpKind, o: Disk, d: Disk)
    requires Shape(op, o, d) && Clean(d)
    ensures Replay(d) == if Intent(d) then Program(op, o, d) else []
  {
    ProgramIs(op, o, d);
  }

  lemma RecoveryParts(d: Disk, k: nat, rs: seq<Write>, d1: Disk, ps: seq<Write>)
    requires rs == Restore(d) && d1 == Run(d, rs) && ps == Replay(d1)
    ensures k <= |rs| ==> Crash(d, Recovery(d), k) == Crash(d, rs, k)
    ensures |rs| <= k ==> Crash(d, Recovery(d), k) == Crash(d1, ps, k - |rs|)
  {
    CrashSplit(d, rs, ps, k);
  }

  lemma CrashSplit(d: Disk, xs: seq<Write>, ys: seq<Write>, k: nat)
    ensures k <= |xs| ==> Crash(d, xs + ys, k) == Crash(d, xs, k)
    ensures |xs| <= k ==> Crash(d, xs + ys, k) == Crash(Run(d, xs), ys, k - |xs|)
  {
    if k <= |xs| {
      CrashFirst(d, xs, ys, k);
    }
    if |xs| <= k {
      CrashSecond(d, xs, ys, k);
    }
  }

  lemma CrashNothing(d: Disk, k: nat)
    ensures Crash(d, [], k) == d
  {
  }

  /** A crash during recovery: either nothing was changed beyond the dirty restore, or the program of the stamped
      operation was under way on the restored disk. */
  lemma RecoverySplit(op: OpKind, o: Disk, d: Disk, k: nat) returns (late: bool, d1: Disk, j: nat)
    requires Shape(op, o, d)
    ensures !late ==> SameView(op, o, d, Crash(d, Recovery(d), k))
    ensures late ==>
              && SameView(op, o, d, d1) && Clean(d1) && Intent(d1)
              && Crash(d, Recovery(d), k) == Crash(d1, Program(op, o, d1), j)
  {
    late, d1, j := RecoveryCases(op, o, d, k);
    if late {
      ReplayCrash(op, o, d1, j);
      late := Intent(d1);
    }
  }

  lemma RecoveryCases(op: OpKind, o: Disk, d: Disk, k: nat) returns (late: bool, d1: Disk, j: nat)
    requires Shape(op, o, d)
    ensures SameView(op, o, d, d1) && Clean(d1)
    ensures !late ==> SameView(op, o, d, Crash(d, Recovery(d), k))
    ensures late ==> Crash(d, Recovery(d), k) == Crash(d1, Replay(d1), j)
  {
    var rs := Restore(d);
    d1 := Run(d, rs);
    RestoredView(op, o, d, rs, d1);
    RecoveryParts(d, k, rs, d1, Replay(d1));
    RestoreCrash(op, o, d, k);
    late, j := k > |rs|, if k > |rs| then k - |rs| else 0;
  }

  lemma RestoredView(op: OpKind, o: Disk, d: Disk, rs: seq<Write>, d1: Disk)
    requires Shape(op, o, d) && rs == Restore(d) && d1 == Run(d, rs)
    ensures SameView(op, o, d, d1) && Clean(d1)
  {
    RestoreDone(d);
  }

  lemma ReplayCrash(op: OpKind, o: Disk, d: Disk, j: nat)
    requires Shape(op, o, d) && Clean(d)
    ensures Crash(d, Replay(d), j) == if Intent(d) then Crash(d, Program(op, o, d), j) else d
  {
    ReplayIs(op, o, d);
    CrashNothing(d, j);
  }

  lemma RecoveryCrash(op: OpKind, o: Disk, total: nat, d: Disk, k: nat)
    requires Quiescent(op, o, total) && Shape(op, o, d)
    ensures Shape(op, o, Crash(d, Recovery(d), k))
  {
    var late, d1, j := RecoverySplit(op, o, d, k);
    if late {
      ProgramCrash(op, o, total, d1, j);
    }
  }

  lemma OperationIs(op: OpKind, o: Disk)
    ensures Operation(op, o) == Stamp(op, N(op, o)) + Program(op, o, Run(o, Stamp(op, N(op, o))))
  {
    var st := Stamp(op, N(op, o));
    var d := Run(o, st);
    ProgramIs(op, o, d);
    Regroup(st, Body(op, d, N(op, o)), [], Clear());
  }

  /** A crash of the operation falls in the stamp or in the program that follows it. */
  lemma OperationSplit(op: OpKind, o: Disk, k: nat) returns (late: bool, d: Disk, j: nat)
    ensures !late ==> Crash(o, Operation(op, o), k) == Crash(o, Stamp(op, N(op, o)), k)
    ensures late ==> d == Run(o, Stamp(op, N(op, o))) && Crash(o, Operation(op, o), k) == Crash(d, Program(op, o, d), j)
  {
    var st := Stamp(op, N(op, o));
    d := Run(o, st);
    OperationIs(op, o);
    CrashSplit(o, st, Program(op, o, d), k);
    late, j := |st| < k, if |st| < k then k - |st| else 0;
  }

  lemma OperationCrash(op: OpKind, o: Disk, total: nat, k: nat)
    requires Quiescent(op, o, total)
    ensures Shape(op, o, Crash(o, Operation(op, o), k))
  {
    StampCrash(op, o, total, k);
    PhaseFacts(op, o.m0, o.m0, total, o.entries);
    var late, d, j := OperationSplit(op, o, k);
    if late {
      ProgramCrash(op, o, total, d, j);
    }
  }

  /** At every point of every run, however many opens have died, the disk has the shape. */
  lemma {:induction false} RunShape(op: OpKind, o: Disk, total: nat, k: nat, ks: seq<nat>)
    requires Quiescent(op, o, total)
    ensures Shape(op, o, AfterCrashes(Crash(o, Operation(op, o), k), ks))
  {
    if ks == [] {
      OperationCrash(op, o, total, k);
    } else {
      var rest := ks[..|ks| - 1];
      RunShape(op, o, total, k, rest);
      RecoveryCrash(op, o, total, AfterCrashes(Crash(o, Operation(op, o), k), rest), ks[|ks| - 1]);
    }
  }
}
