/**
 Client work between activation and deactivation: appending root offsets to the primary
 timeline and erasing versions of it, as stores into both copies.  The round trip gives the
 primary its chunks back in their original order, with the history the client's calls describe.
 */
module ClientHistory {
  import opened Disk
  import opened Programs
  import opened Phases
  import opened PhaseData
  import opened CrashSafety
  import opened Outcomes
  import opened Lifecycle
  import opened Agreement
  import opened ClientCalls

  // ---------------------------------------------------------------- both copies receive the same entries

  /** The same stores, into whichever copy. */
  predicate SameStore(w: Write, w': Write) {
    match w
    case Dirty(_, on) => w'.Dirty? && w'.on == on
    case Store(_, f) => w'.Store? && w'.f == f
    case Cell(_, at, off) => w'.Cell? && w'.at == at && w'.off == off
  }

  predicate Alike(ws: seq<Write>, ws': seq<Write>) {
    |ws| == |ws'| && forall i :: 0 <= i < |ws| ==> SameStore(ws[i], ws'[i])
  }

  lemma {:induction false} AlikeEffect(cells: Cells, m: Metadata, ws: seq<Write>, ws': seq<Write>)
    requires Alike(ws, ws')
    ensures CellsEffect(cells, ws) == CellsEffect(cells, ws') && MetaEffect(m, ws) == MetaEffect(m, ws')
  {
    if ws != [] {
      var n := |ws| - 1;
      AlikeEffect(cells, m, ws[..n], ws'[..n]);
      assert SameStore(ws[n], ws'[n]);
    }
  }

  lemma {:induction false} FillAlike(span: seq<nat>, e: Pos, lo: nat, n: nat)
    ensures Alike(Fill(0, span, e, lo, n), Fill(1, span, e, lo, n))
  {
    if n != 0 {
      FillAlike(span, e, lo, n - 1);
    }
  }

  lemma {:induction false} RelocateAlike(cells: Cells, span: seq<nat>, e: Pos, oldCap: Pos, newCap: Pos, lo: nat,
                                         n: nat)
    ensures Alike(Relocate(0, cells, span, e, oldCap, newCap, lo, n),
                  Relocate(1, cells, span, e, oldCap, newCap, lo, n))
  {
    if n != 0 {
      RelocateAlike(cells, span, e, oldCap, newCap, lo, n - 1);
    }
  }

  lemma {:induction false} MoveAlike(x: Metadata, from: Bit, fromBase: nat, to: Bit, toBase: nat, n: nat)
    ensures Alike(MoveSlots(0, x, from, fromBase, to, toBase, n), MoveSlots(1, x, from, fromBase, to, toBase, n))
  {
    if n != 0 {
      MoveAlike(x, from, fromBase, to, toBase, n - 1);
    }
  }

  lemma AlikeAppend(a: seq<Write>, b: seq<Write>, a': seq<Write>, b': seq<Write>)
    requires Alike(a, a') && Alike(b, b')
    ensures Alike(a + b, a' + b')
  {
  }

  lemma FrontAlike(x: Metadata, mount: Metadata, pi: Bit, cells: Cells, e: Pos, n: Pos)
    ensures Alike(ActivateFront(0, x, mount, pi, cells, e, n), ActivateFront(1, x, mount, pi, cells, e, n))
  {
    var newLb := RaisedLowerBound(x.ring(pi), Cap(n, e));
    RelocateAlike(cells, ShrinkSpan(x, mount, pi, n), e, 2 * Cap(n, e), Cap(n, e), newLb,
                  Window(newLb, x.ring(pi).nextVersion));
    var b0, b1 := ActivateBump(0, x, pi, e, n), ActivateBump(1, x, pi, e, n);
    var c0, c1 := ActivateCopies(0, x, mount, pi, cells, e, n), ActivateCopies(1, x, mount, pi, cells, e, n);
    assert Alike(b0, b1) && Alike(c0, c1);
    AlikeAppend(b0, c0, b1, c1);
    MoveAlike(x, pi, n, 1 - pi, 0, n);
    AlikeAppend(b0 + c0, MoveSlots(0, x, pi, n, 1 - pi, 0, n), b1 + c1, MoveSlots(1, x, pi, n, 1 - pi, 0, n));
  }

  lemma ActivateAlike(x: Metadata, mount: Metadata, pi: Bit, cells: Cells, e: Pos, n: Pos)
    ensures Alike(ActivateInner(0, x, mount, pi, cells, e, n), ActivateInner(1, x, mount, pi, cells, e, n))
  {
    var f0, f1 := ActivateFront(0, x, mount, pi, cells, e, n), ActivateFront(1, x, mount, pi, cells, e, n);
    var b0, b1 := ActivateBlank(0, x, pi, e, n), ActivateBlank(1, x, pi, e, n);
    FrontAlike(x, mount, pi, cells, e, n);
    FillAlike(MovedIds(x, pi, n, 1 - pi, 0, n), e, 0, Cap(n, e));
    AlikeAppend(f0, b0, f1, b1);
    AlikeAppend(f0 + b0, ActivateCommit(0, pi, n), f1 + b1, ActivateCommit(1, pi, n));
  }

  lemma DataAlike(x: Metadata, mount: Metadata, pi: Bit, cells: Cells, e: Pos, n: nat)
    ensures Alike(DeactivateData(0, x, mount, pi, cells, e, n), DeactivateData(1, x, mount, pi, cells, e, n))
  {
    var p := x.ring(pi);
    if 0 < p.len < n {
      var span := GrowSpan(x, mount, pi, n);
      var lo, w := p.lowerBound, Window(p.lowerBound, p.nextVersion);
      FillAlike(span, e, Cap(p.len, e), Cap(n - p.len, e));
      RelocateAlike(cells, span, e, Cap(p.len, e), Cap(n, e), lo, w);
      AlikeAppend(Fill(0, span, e, Cap(p.len, e), Cap(n - p.len, e)),
                  Relocate(0, cells, span, e, Cap(p.len, e), Cap(n, e), lo, w),
                  Fill(1, span, e, Cap(p.len, e), Cap(n - p.len, e)),
                    Relocate(1, cells, span, e, Cap(p.len, e), Cap(n, e), lo, w));
    }
  }

  lemma DeactivateAlike(x: Metadata, mount: Metadata, pi: Bit, cells: Cells, e: Pos, n: nat)
    ensures Alike(DeactivateInner(0, x, mount, pi, cells, e, n), DeactivateInner(1, x, mount, pi, cells, e, n))
  {
    var m0, m1 := DeactivateMoves(0, x, pi, n), DeactivateMoves(1, x, pi, n);
    var d0, d1 := DeactivateData(0, x, mount, pi, cells, e, n), DeactivateData(1, x, mount, pi, cells, e, n);
    MoveAlike(x, 1 - pi, 0, pi, x.ring(pi).len, Window(x.ring(pi).len, n));
    DataAlike(x, mount, pi, cells, e, n);
    AlikeAppend(m0, d0, m1, d1);
    AlikeAppend(m0 + d0, DeactivateCommit(0, pi, n), m1 + d1, DeactivateCommit(1, pi, n));
  }

  lemma InnerAlike(op: OpKind, x: Metadata, mount: Metadata, pi: Bit, cells: Cells, e: Pos, n: nat)
    ensures Alike(Inner(op, 0, x, mount, pi, cells, e, n), Inner(op, 1, x, mount, pi, cells, e, n))
  {
    match op
    case NoOp =>
    case Activate => if n != 0 { ActivateAlike(x, mount, pi, cells, e, n); }
    case Deactivate => DeactivateAlike(x, mount, pi, cells, e, n);
    case Promote =>
  }

  lemma ActivateSame(c: Bit, x: Metadata, y: Metadata, mount: Metadata, pi: Bit, cells: Cells, e: Pos, n: Pos)
    requires x.a == y.a && x.b == y.b
    ensures ActivateInner(c, x, mount, pi, cells, e, n) == ActivateInner(c, y, mount, pi, cells, e, n)
  {
    MoveSame(c, x, y, pi, n, 1 - pi, 0, n);
    MovedSame(x, y, pi, n, 1 - pi, 0, n);
    MovedSame(x, y, 1 - pi, 0, pi, n, n);
    assert ActivateCopies(c, x, mount, pi, cells, e, n) == ActivateCopies(c, y, mount, pi, cells, e, n);
    assert ActivateFront(c, x, mount, pi, cells, e, n) == ActivateFront(c, y, mount, pi, cells, e, n);
    assert ActivateBlank(c, x, pi, e, n) == ActivateBlank(c, y, pi, e, n);
  }

  lemma DeactivateSame(c: Bit, x: Metadata, y: Metadata, mount: Metadata, pi: Bit, cells: Cells, e: Pos, n: nat)
    requires x.a == y.a && x.b == y.b
    ensures DeactivateInner(c, x, mount, pi, cells, e, n) == DeactivateInner(c, y, mount, pi, cells, e, n)
  {
    var h := x.ring(pi).len;
    MoveSame(c, x, y, 1 - pi, 0, pi, h, Window(h, n));
    MovedSame(x, y, 1 - pi, 0, pi, h, Window(h, n));
    assert DeactivateMoves(c, x, pi, n) == DeactivateMoves(c, y, pi, n);
    assert DeactivateData(c, x, mount, pi, cells, e, n) == DeactivateData(c, y, mount, pi, cells, e, n);
  }

  /** A body reads only the rings of a header. */
  lemma InnerSame(op: OpKind, c: Bit, x: Metadata, y: Metadata, mount: Metadata, pi: Bit, cells: Cells, e: Pos, n: nat)
    requires x.a == y.a && x.b == y.b
    ensures Inner(op, c, x, mount, pi, cells, e, n) == Inner(op, c, y, mount, pi, cells, e, n)
  {
    match op
    case NoOp =>
    case Activate => if n != 0 { ActivateSame(c, x, y, mount, pi, cells, e, n); }
    case Deactivate => DeactivateSame(c, x, y, mount, pi, cells, e, n);
    case Promote =>
  }

  /** A scope on one copy keeps the entries of the other. */
  lemma ScopeCells(d: Disk, c: Bit, inner: seq<Write>)
    requires Inside(c, inner)
    ensures var r := Run(d, Scope(c, inner));
            r.cells(c) == CellsEffect(d.cells(c), inner) && r.cells(1 - c) == d.cells(1 - c)
              && r.meta(1 - c) == d.meta(1 - c)
            && r.entries == d.entries
  {
    ScopeClosed(d, c, inner);
  }

  lemma PendingCells(d: Disk, c: Bit, op: OpKind, n: nat)
    ensures var r := Run(d, PendingScope(c, op, n));
            r.cells0 == d.cells0 && r.cells1 == d.cells1 && r.entries == d.entries
            && r.meta(c) == d.meta(c).(kind := op, param := n) && r.meta(1 - c) == d.meta(1 - c)
  {
    var inner := [Store(c, PendingKind(op)), Store(c, PendingParam(n))];
    PendingMeta(c, d.meta(c), op, n);
    ScopeCells(d, c, inner);
    ScopeClosed(d, c, inner);
    NoCells(d.cells(c), inner);
  }

  lemma BothPendingCells(d: Disk, op: OpKind, n: nat)
    ensures var r := Run(d, PendingScope(0, op, n) + PendingScope(1, op, n));
            r.cells0 == d.cells0 && r.cells1 == d.cells1 && r.entries == d.entries
            && r.m0 == d.m0.(kind := op, param := n) && r.m1 == d.m1.(kind := op, param := n)
  {
    RunAppend(d, PendingScope(0, op, n), PendingScope(1, op, n));
    PendingCells(d, 0, op, n);
    PendingCells(Run(d, PendingScope(0, op, n)), 1, op, n);
  }

  lemma HistoryCells(d: Disk, c: Bit, h: nat)
    ensures var r := Run(d, Scope(c, [Store(c, HistoryLength(h))]));
            r.cells0 == d.cells0 && r.cells1 == d.cells1
  {
    var inner := [Store(c, HistoryLength(h))];
    ScopeCells(d, c, inner);
    NoCells(d.cells(c), inner);
  }

  lemma HistoryWritesCells(op: OpKind, d: Disk, n: nat, d': Disk)
    ensures var r := Run(d', HistoryWrites(op, d, n)); r.cells0 == d'.cells0 && r.cells1 == d'.cells1
  {
    if HistoryWrites(op, d, n) != [] {
      var h := Max(Cap(n, d.entries), MIN_HISTORY_LENGTH);
      var s0, s1 := Scope(0, [Store(0, HistoryLength(h))]), Scope(1, [Store(1, HistoryLength(h))]);
      RunAppend(d', s0, s1);
      HistoryCells(d', 0, h);
      HistoryCells(Run(d', s0), 1, h);
    }
  }

  /** Copies that agree receive the same entries from a body. */
  lemma BodySync(op: OpKind, d: Disk, n: nat)
    requires d.cells0 == d.cells1 && d.m0.a == d.m1.a && d.m0.b == d.m1.b
    ensures var r := Run(d, Body(op, d, n)); r.cells0 == r.cells1
  {
    var mount, pi := d.m0, d.m0.primary;
    var i0 := Inner(op, 0, d.m0, mount, pi, d.cells0, d.entries, n);
    var i1 := Inner(op, 1, d.m1, mount, pi, d.cells1, d.entries, n);
    InnerInside(op, 0, d.m0, mount, pi, d.cells0, d.entries, n);
    InnerInside(op, 1, d.m1, mount, pi, d.cells1, d.entries, n);
    InnerSame(op, 1, d.m1, d.m0, mount, pi, d.cells0, d.entries, n);
    InnerAlike(op, d.m0, mount, pi, d.cells0, d.entries, n);
    AlikeEffect(d.cells0, d.m0, i0, i1);
    var s0, s1, h := Scope(0, i0), Scope(1, i1), HistoryWrites(op, d, n);
    ThreeRuns(d, s0, s1, h);
    ScopeCells(d, 0, i0);
    var d1 := Run(d, s0);
    ScopeCells(d1, 1, i1);
    HistoryWritesCells(op, d, n, Run(d1, s1));
  }

  lemma CompleteSync(op: OpKind, o: Disk, total: nat)
    requires Quiescent(op, o, total) && o.cells0 == o.cells1
    ensures Complete(op, o).cells0 == Complete(op, o).cells1
  {
    var n := Target(op, o.m0);
    BothPendingCells(o, op, n);
    var d := Run(o, Stamp(op, n));
    assert Norm(o.m0).a == Norm(o.m1).a && Norm(o.m0).b == Norm(o.m1).b;
    BodySync(op, d, n);
    ThreeRuns(o, Stamp(op, n), Body(op, d, n), Clear());
    BothPendingCells(Run(d, Body(op, d, n)), NoOp, 0);
  }

  // ---------------------------------------------------------------- the history that calls describe

  /** A disk between calls whose copies agree in headers and entries. */
  ghost predicate Usable(d: Disk, total: nat) {
    Sound(d, total) && d.cells0 == d.cells1
  }

  lemma UsableRing(d: Disk, total: nat)
    requires Usable(d, total)
    ensures Ringed(d) && RingAt(d, 0) == RingAt(d, 1) && RingAt(d, 0).cells != []
    ensures RO.Windowed(RingAt(d, 0)) && InBounds(RingAt(d, 0))
  {
    AgreedServed(d, total);
  }

  /** The caller's obligations on the ring of copy 0: an append finds room, an update names a live version, and a move
      forward does not pass a version that is still live unless it passes them all. */
  predicate Admissible(r: RO.LiveRing, call: RO.Call) {
    && RO.Windowed(r) && r.nv <= INVALID_BLOCK_NUM
    && match call
       case AppendCall(o) => o != INVALID_OFFSET && r.nv < r.lb + |r.cells| && r.nv < INVALID_BLOCK_NUM
       case UpdateCall(i, _) => r.lb <= i < r.nv
       case FastForwardCall(v) =>
         r.nv <= v <= INVALID_BLOCK_NUM && (RC.ForwardResets(r, v) || v <= r.lb + |r.cells|)
  }

  /** What one call makes of a history: an append counts versions up, an update replaces or removes one and starts over
      when none is left, a move forward keeps the versions or, past the capacity, drops them. */
  function Describe(h: map<nat, Offset>, nv: nat, cap: nat, call: RO.Call): (map<nat, Offset>, nat) {
    match call
    case AppendCall(o) => (h[nv := o], nv + 1)
    case UpdateCall(i, o) =>
      if o != INVALID_OFFSET then (h[i := o], nv)
      else (h - {i}, if h.Keys <= {i} && i + 1 == nv then 0 else nv)
    case FastForwardCall(v) => (if 0 < nv && v - (nv - 1) < cap then h else map[], v)
  }

  lemma EraseDescribed(r: RO.LiveRing, i: nat)
    requires RO.Windowed(r) && r.lb <= i < r.nv <= INVALID_BLOCK_NUM
    ensures var s := RO.Update(r, i, INVALID_OFFSET);
            && RO.Windowed(s) && s.nv <= r.nv && RO.View(s) == RO.View(r) - {i}
            && s.nv == if RO.View(r).Keys <= {i} && i + 1 == r.nv then 0 else r.nv
  {
    RO.EraseView(r, i);
    if i + 1 == r.nv {
      RO.EraseLast(r, i);
      RO.OthersBlankIff(r, i);
    }
    if RO.View(r).Keys <= {i} && i + 1 == r.nv {
      assert RO.View(r) - {i} == map[];
      assert RO.View(RO.ResetAll(r, 0)) == map[];
    }
  }

  lemma StepDescribed(c: RO.Copies, call: RO.Call)
    requires Admissible(c.c0, call) && RC.Accepts(c, call)
    ensures var s := RO.Step(c, call).c0;
            && RO.Windowed(s) && s.nv <= INVALID_BLOCK_NUM && |s.cells| == |c.c0.cells|
            && (RO.View(s), s.nv) == Describe(RO.View(c.c0), c.c0.nv, |c.c0.cells|, call)
  {
    var r := c.c0;
    match call
    case AppendCall(o) => RO.PushView(r, o);
    case UpdateCall(i, o) =>
      if o == INVALID_OFFSET {
        EraseDescribed(r, i);
      } else {
        RO.AssignView(r, i, o);
      }
    case FastForwardCall(v) => ForwardDescribed(r, v);
  }

  lemma ForwardDescribed(r: RO.LiveRing, v: nat)
    requires Admissible(r, RO.FastForwardCall(v))
    ensures var s := RO.FastForward(r, v);
            RO.Windowed(s) && RO.View(s) == if RC.ForwardResets(r, v) then map[] else RO.View(r)
  {
    RO.FastForwardView(r, v);
    if !RC.ForwardResets(r, v) {
      RC.ForwardPushes(r, v, v - r.nv);
    }
  }

  /** Every call meets its obligations, and copy 1 its assertion. */
  predicate AllAdmissible(c: RO.Copies, calls: seq<RO.Call>) {
    calls == [] ||
    var rest, call := calls[..|calls| - 1], calls[|calls| - 1];
    AllAdmissible(c, rest) && Admissible(RO.Steps(c, rest).c0, call) && RC.Accepts(RO.Steps(c, rest), call)
  }

  function Described(h: map<nat, Offset>, nv: nat, cap: nat, calls: seq<RO.Call>): (map<nat, Offset>, nat) {
    if calls == [] then (h, nv)
    else
      var (h', nv') := Described(h, nv, cap, calls[..|calls| - 1]);
      Describe(h', nv', cap, calls[|calls| - 1])
  }

  lemma {:induction false} StepsDescribed(c: RO.Copies, calls: seq<RO.Call>)
    requires RO.Windowed(c.c0) && c.c0.nv <= INVALID_BLOCK_NUM && AllAdmissible(c, calls)
    ensures var s := RO.Steps(c, calls).c0;
            && RO.Windowed(s) && s.nv <= INVALID_BLOCK_NUM && |s.cells| == |c.c0.cells|
            && (RO.View(s), s.nv) == Described(RO.View(c.c0), c.c0.nv, |c.c0.cells|, calls)
  {
    if calls != [] {
      var rest, call := calls[..|calls| - 1], calls[|calls| - 1];
      StepsDescribed(c, rest);
      StepDescribed(RO.Steps(c, rest), call);
    }
  }

  // ---------------------------------------------------------------- activate, use, deactivate

  lemma CompleteUsable(op: OpKind, o: Disk, total: nat)
    requires Usable(o, total) && Ready(op, o.m0, total, o.entries)
    ensures Usable(Complete(op, o), total)
    ensures Norm(Complete(op, o).m0) == Norm(PostMeta(op, o.m0, o.entries, Target(op, o.m0)))
  {
    CompleteIs(op, o, total);
    CompleteSync(op, o, total);
    var r := Complete(op, o);
    PostWellFormed(op, o.m0, total, o.entries);
    NormWellFormed(PostMeta(op, o.m0, o.entries, Target(op, o.m0)), r.m0, total, o.entries);
  }

  lemma NormWellFormed(x: Metadata, y: Metadata, total: nat, e: Pos)
    requires WellFormed(x, total, e) && Norm(x) == Norm(y)
    ensures WellFormed(y, total, e)
  {
    assert y.a == Norm(y).a == x.a && y.b == Norm(y).b == x.b && y.primary == Norm(y).primary == x.primary
        && y.active == Norm(y).active == x.active;
  }

  /** The primary ring right after activation. */
  lemma ActivatedRing(o: Disk, total: nat, v: nat)
    requires Usable(o, total) && Ready(Activate, o.m0, total, o.entries)
    ensures var d := Complete(Activate, o);
            && Usable(d, total) && RingAt(d, 0).cells != []
            && Norm(d.m0) == Norm(PostMeta(Activate, o.m0, o.entries, Target(Activate, o.m0)))
            && RO.Get(RingAt(d, 0), v) ==
               (if KeptFrom(Activate, o.m0, o.entries) <= v then RootOffsetAt(o, 0, v) else INVALID_OFFSET)
  {
    var d := Complete(Activate, o);
    CompleteUsable(Activate, o, total);
    UsableRing(d, total);
    AnswerIsGet(d, v);
    ActivateAnswers(o, total, v);
  }

  /** Deactivation of a disk whose chunk lists are those of an activation. */
  lemma MergedBack(o: Disk, total: nat, e: Disk, v: nat)
    requires Ready(Activate, o.m0, total, o.entries) && e.entries == o.entries && Usable(e, total)
             && RingAt(e, 0).cells != []
    requires var q := PostMeta(Activate, o.m0, o.entries, Target(Activate, o.m0)); SameLists(q, e.m0) && q.active
    ensures var r := Complete(Deactivate, e);
            && RestoredLists(o.m0, r.m0)
            && RootOffsetAt(r, 0, v) == RO.Get(RingAt(e, 0), v)
  {
    UsableRing(e, total);
    AnswerIsGet(e, v);
    DeactivateAnswers(e, total, v);
    CompleteUsable(Deactivate, e, total);
    NormLists(Complete(Deactivate, e).m0, PostMeta(Deactivate, e.m0, e.entries, Target(Deactivate, e.m0)));
    ChunkListRoundTrip(o.m0, e.m0, total, o.entries);
  }

  /** The primary owns all chunks again, in the original order; the secondary is inactive and owns none. */
  predicate RestoredLists(m: Metadata, m': Metadata) {
    && m'.primary == m.primary && !m'.active
    && m'.primaryRing().slots == m.primaryRing().slots && m'.primaryRing().len == m.primaryRing().len
    && m'.secondaryRing().slots == m.secondaryRing().slots && m'.secondaryRing().len == 0
  }

  /** What a query finds in a history. */
  function Answer(h: map<nat, Offset>, v: nat): Offset {
    if v in h then h[v] else INVALID_OFFSET
  }

  /** The versions that activation keeps, at their offsets. */
  function KeptHistory(o: Disk): map<nat, Offset> {
    map v | KeptFrom(Activate, o.m0, o.entries) <= v < o.m0.primaryRing().nextVersion
      && RootOffsetAt(o, 0, v) != INVALID_OFFSET
      :: RootOffsetAt(o, 0, v)
  }

  lemma ViewAnswers(r: RO.LiveRing, v: nat)
    ensures RO.Get(r, v) == Answer(RO.View(r), v)
  {
  }

  lemma ActivatedView(o: Disk, total: nat)
    requires Usable(o, total) && Ready(Activate, o.m0, total, o.entries)
    ensures var d := Complete(Activate, o);
            && Usable(d, total) && RingAt(d, 0).cells != [] && RO.Windowed(RingAt(d, 0))
            && RO.View(RingAt(d, 0)) == KeptHistory(o)
            && RingAt(d, 0).nv == o.m0.primaryRing().nextVersion <= INVALID_BLOCK_NUM
  {
    var d := Complete(Activate, o);
    ActivatedRing(o, total, 0);
    UsableRing(d, total);
    var r := RingAt(d, 0);
    ActivatedBounds(o, total, d.m0);
    forall v ensures v in RO.View(r) <==> v in KeptHistory(o) {
      ActivatedRing(o, total, v);
    }
    forall v | v in RO.View(r) ensures RO.View(r)[v] == RootOffsetAt(o, 0, v) {
      ActivatedRing(o, total, v);
    }
  }

  lemma ActivatedBounds(o: Disk, total: nat, x: Metadata)
    requires Ready(Activate, o.m0, total, o.entries)
    requires Norm(x) == Norm(PostMeta(Activate, o.m0, o.entries, Target(Activate, o.m0)))
    ensures x.primaryRing().nextVersion == o.m0.primaryRing().nextVersion <= INVALID_BLOCK_NUM
    ensures x.primaryRing().lowerBound == KeptFrom(Activate, o.m0, o.entries)
  {
    PhaseFacts(Activate, o.m0, o.m0, total, o.entries);
    NormLists(x, PostMeta(Activate, o.m0, o.entries, Target(Activate, o.m0)));
  }

  /** Activation, then any calls that meet their obligations, then deactivation, on copies that may differ in anything
      but their chunk lists: the chunk list is back in its original order, the secondary ring is empty again, and every
      query answers from the history that the calls describe, starting from the versions activation kept. */
  lemma ActivateUseDeactivate(o: Disk, total: nat, calls: seq<RO.Call>, v: nat)
    requires Callable(Activate, o, total)
    ensures Ringed(Complete(Activate, o))
    ensures AllAdmissible(CopiesAt(Complete(Activate, o)), calls) ==>
              var d := Complete(Activate, o);
              var r := Complete(Deactivate, Used(d, calls));
              var h := Described(KeptHistory(o), o.m0.primaryRing().nextVersion, Cap(total / 2, o.entries), calls).0;
              RestoredLists(o.m0, r.m0) && RootOffsetAt(r, 0, v) == Answer(h, v)
  {
    var d := Complete(Activate, o);
    ActivatedCopies(o, total);
    if AllAdmissible(CopiesAt(d), calls) {
      StepsDescribed(CopiesAt(d), calls);
      ViewAnswers(RO.Steps(CopiesAt(d), calls).c0, v);
      UsedAndMerged(o, total, calls, v);
    }
  }

  lemma MirrorUsable(o: Disk, total: nat)
    requires AtRest(o) && WellFormed(o.m0, total, o.entries)
    ensures Usable(Mirror(o), total) && RingAt(Mirror(o), 0) == RingAt(o, 0)
  {
  }

  lemma MirrorHistory(o: Disk)
    ensures KeptHistory(Mirror(o)) == KeptHistory(o)
  {
    assert forall v :: RootOffsetAt(Mirror(o), 0, v) == RootOffsetAt(o, 0, v);
  }

  /** Copy 0 after activation. */
  lemma ActivatedCopy0(o: Disk, total: nat)
    requires AtRest(o) && Ready(Activate, o.m0, total, o.entries)
    ensures var d := Complete(Activate, o);
            && AtRest(d) && d.entries == o.entries && WellFormed(d.m0, total, d.entries) && d.m0.active
            && Norm(d.m0) == Norm(PostMeta(Activate, o.m0, o.entries, Target(Activate, o.m0)))
            && RingAt(d, 0).cells != [] && RO.Windowed(RingAt(d, 0)) && RO.View(RingAt(d, 0)) == KeptHistory(o)
            && RingAt(d, 0).nv == o.m0.primaryRing().nextVersion <= INVALID_BLOCK_NUM
            && |RingAt(d, 0).cells| == Cap(total / 2, o.entries)
  {
    var d, q := Complete(Activate, o), Complete(Activate, Mirror(o));
    CompleteMirror(Activate, o);
    MirrorUsable(o, total);
    MirrorHistory(o);
    ActivatedView(Mirror(o), total);
    CompleteUsable(Activate, Mirror(o), total);
    assert RingAt(d, 0) == RingAt(q, 0);
    ActivatedHalf(o.m0, d.m0, total, o.entries);
  }

  lemma ActivatedHalf(m: Metadata, x: Metadata, total: nat, e: Pos)
    requires Ready(Activate, m, total, e) && Norm(x) == Norm(PostMeta(Activate, m, e, Target(Activate, m)))
    ensures x.active && x.primary == m.primary && x.primaryRing().len == total / 2
    ensures x.primaryRing().slots == Splice(m.primaryRing().slots, total / 2, Nulls(total / 2))
  {
    PhaseFacts(Activate, m, x, total, e);
    NormLists(x, PostMeta(Activate, m, e, Target(Activate, m)));
  }

  lemma ActivatedCopies(o: Disk, total: nat)
    requires Callable(Activate, o, total)
    ensures var d := Complete(Activate, o);
            && AtRest(d) && Ringed(d) && WellFormed(d.m0, total, d.entries)
            && RO.Windowed(CopiesAt(d).c0) && RO.View(CopiesAt(d).c0) == KeptHistory(o)
            && CopiesAt(d).c0.nv == o.m0.primaryRing().nextVersion <= INVALID_BLOCK_NUM
            && |CopiesAt(d).c0.cells| == Cap(total / 2, o.entries)
  {
    var d := Complete(Activate, o);
    ActivatedCopy0(o, total);
    SoundServed(d, total);
    CompleteCopy1(Activate, o, total);
    SameTarget(Activate, o.m0, o.m1);
    ActivatedHalf(o.m1, d.m1, total, o.entries);
    ActivatedHalf(o.m0, d.m0, total, o.entries);
    assert Chunks(d.m1, d.m0.primary) == Chunks(d.m0, d.m0.primary);
  }

  lemma UsedAndMerged(o: Disk, total: nat, calls: seq<RO.Call>, v: nat)
    requires Callable(Activate, o, total) && Ringed(Complete(Activate, o))
    requires AllAdmissible(CopiesAt(Complete(Activate, o)), calls)
    ensures var d := Complete(Activate, o);
            var r := Complete(Deactivate, Used(d, calls));
            RestoredLists(o.m0, r.m0) && RootOffsetAt(r, 0, v) == RO.Get(RO.Steps(CopiesAt(d), calls).c0, v)
  {
    var d := Complete(Activate, o);
    var e := Used(d, calls);
    UsedReady(o, total, calls);
    MergedCopy0(o, total, e, v);
  }

  lemma UsedReady(o: Disk, total: nat, calls: seq<RO.Call>)
    requires Callable(Activate, o, total) && Ringed(Complete(Activate, o))
    requires AllAdmissible(CopiesAt(Complete(Activate, o)), calls)
    ensures var d := Complete(Activate, o);
            var e, q := Used(d, calls), PostMeta(Activate, o.m0, o.entries, Target(Activate, o.m0));
            && AtRest(e) && e.entries == o.entries && WellFormed(e.m0, total, e.entries)
            && SameLists(q, e.m0) && q.active && RingAt(e, 0) == RO.Steps(CopiesAt(d), calls).c0
  {
    var d := Complete(Activate, o);
    ActivatedCopy0(o, total);
    StepsDescribed(CopiesAt(d), calls);
    UsedSteps(d, calls);
    var e, s := Used(d, calls), RO.Steps(CopiesAt(d), calls).c0;
    BoundedLists(d.m0, d.m0.primary, s.lb, s.nv);
    ActivatedLists(o, total, d.m0, e.m0);
    BoundedWellFormed(d.m0, total, d.entries, s.lb, s.nv);
    assert RingAt(e, 0) == CopiesAt(e).c0;
  }

  lemma MergedCopy0(o: Disk, total: nat, e: Disk, v: nat)
    requires Ready(Activate, o.m0, total, o.entries) && AtRest(e) && e.entries == o.entries
    requires WellFormed(e.m0, total, e.entries) && RingAt(e, 0).cells != []
    requires var q := PostMeta(Activate, o.m0, o.entries, Target(Activate, o.m0)); SameLists(q, e.m0) && q.active
    ensures var r := Complete(Deactivate, e);
            RestoredLists(o.m0, r.m0) && RootOffsetAt(r, 0, v) == RO.Get(RingAt(e, 0), v)
  {
    MirrorUsable(e, total);
    CompleteMirror(Deactivate, e);
    MergedBack(o, total, Mirror(e), v);
    assert RootOffsetAt(Complete(Deactivate, e), 0, v) == RootOffsetAt(Complete(Deactivate, Mirror(e)), 0, v);
  }

  /** Other bounds within the window keep the header well formed. */
  lemma BoundedWellFormed(m: Metadata, total: nat, e: Pos, lb: nat, nv: nat)
    requires WellFormed(m, total, e) && lb <= nv <= lb + Cap(m.primaryRing().len, e) && nv <= INVALID_BLOCK_NUM
    ensures WellFormed(Bounded(m, m.primary, lb, nv), total, e)
  {
  }

  lemma ActivatedLists(o: Disk, total: nat, x: Metadata, y: Metadata)
    requires Ready(Activate, o.m0, total, o.entries) && SameLists(x, y)
    requires Norm(x) == Norm(PostMeta(Activate, o.m0, o.entries, Target(Activate, o.m0)))
    ensures var q := PostMeta(Activate, o.m0, o.entries, Target(Activate, o.m0)); SameLists(q, y) && q.active
  {
    var q := PostMeta(Activate, o.m0, o.entries, Target(Activate, o.m0));
    NormLists(x, q);
    PhaseFacts(Activate, o.m0, o.m0, total, o.entries);
  }

  lemma NormLists(x: Metadata, q: Metadata)
    requires Norm(x) == Norm(q)
    ensures SameLists(q, x)
  {
    assert x.a == Norm(x).a == q.a && x.b == Norm(x).b == q.b && x.primary == Norm(x).primary
           && x.active == Norm(x).active
        && q.primary == Norm(q).primary && q.active == Norm(q).active;
  }
}
