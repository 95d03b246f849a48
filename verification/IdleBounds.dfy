/**
 The idle secondary ring.  While the secondary timeline is inactive no query shows the version
 bounds its ring header still holds, and the copies may differ there.  Activation resets both
 bounds before it raises the active flag, so two disks that differ only in idle bounds go
 through every run of crashes side by side.
 */
module IdleBounds {
  import opened Disk
  import opened Programs
  import opened Phases
  import opened CrashSafety
  import opened Outcomes
  import opened CrashTheorems
  import opened TornStamp
  import opened TornActivate
  import opened Agreement

  // ---------------------------------------------------------------- two runs side by side

  /** The header without the version bounds of ring `i`. */
  function Mask(i: Bit, m: Metadata): Metadata {
    m.withRing(i, m.ring(i).(lowerBound := 0, nextVersion := 0))
  }

  predicate SimField(i: Bit, f: Field, g: Field) {
    || f == g
    || (f.LowerBound? && g.LowerBound? && f.r == i && g.r == i)
    || (f.NextVersion? && g.NextVersion? && f.r == i && g.r == i)
  }

  predicate SimWrite(i: Bit, w: Write, v: Write) {
    w == v || (w.Store? && v.Store? && w.c == v.c && SimField(i, w.f, v.f))
  }

  predicate SimWrites(i: Bit, ws: seq<Write>, vs: seq<Write>) {
    |ws| == |vs| && forall k :: 0 <= k < |ws| ==> SimWrite(i, ws[k], vs[k])
  }

  lemma SimPut(i: Bit, x: Metadata, y: Metadata, f: Field, g: Field)
    requires Mask(i, x) == Mask(i, y) && SimField(i, f, g)
    ensures Mask(i, Put(x, f)) == Mask(i, Put(y, g))
  {
    assert x.ring(1 - i) == y.ring(1 - i) && x.ring(i).slots == y.ring(i).slots;
  }

  lemma {:induction false} SimEffect(i: Bit, x: Metadata, y: Metadata, cells: Cells, ws: seq<Write>, vs: seq<Write>)
    requires Mask(i, x) == Mask(i, y) && SimWrites(i, ws, vs)
    ensures Mask(i, MetaEffect(x, ws)) == Mask(i, MetaEffect(y, vs))
    ensures CellsEffect(cells, ws) == CellsEffect(cells, vs)
  {
    if ws != [] {
      var n := |ws| - 1;
      assert SimWrite(i, ws[n], vs[n]);
      SimEffect(i, x, y, cells, ws[..n], vs[..n]);
      if ws[n].Store? {
        SimPut(i, MetaEffect(x, ws[..n]), MetaEffect(y, vs[..n]), ws[n].f, vs[n].f);
      }
    }
  }

  /** The headers agree except in the bounds of ring `i`, and there too once the copy is clean and active. */
  predicate SameCopy(i: Bit, dirty: bool, x: Metadata, y: Metadata) {
    Mask(i, x) == Mask(i, y) && (!dirty && x.active ==> x == y)
  }

  predicate Same(i: Bit, d: Disk, e: Disk) {
    && d.entries == e.entries && d.dirty0 == e.dirty0 && d.dirty1 == e.dirty1
    && d.cells0 == e.cells0 && d.cells1 == e.cells1
    && SameCopy(i, d.dirty0, d.m0, e.m0) && SameCopy(i, d.dirty1, d.m1, e.m1)
  }

  /** The two programs keep the disks the same, wherever both die. */
  ghost predicate Tracks(i: Bit, d: Disk, e: Disk, ws: seq<Write>, vs: seq<Write>) {
    |ws| == |vs| && forall k: nat :: Same(i, Crash(d, ws, k), Crash(e, vs, k))
  }

  lemma TracksRun(i: Bit, d: Disk, e: Disk, ws: seq<Write>, vs: seq<Write>)
    requires Tracks(i, d, e, ws, vs)
    ensures Same(i, Run(d, ws), Run(e, vs))
  {
    CrashWhole(d, ws, |ws|);
    CrashWhole(e, vs, |vs|);
    assert Same(i, Crash(d, ws, |ws|), Crash(e, vs, |ws|));
  }

  lemma TracksAppend(i: Bit, d: Disk, e: Disk, ws: seq<Write>, vs: seq<Write>, ws2: seq<Write>, vs2: seq<Write>)
    requires Tracks(i, d, e, ws, vs) && Tracks(i, Run(d, ws), Run(e, vs), ws2, vs2)
    ensures Tracks(i, d, e, ws + ws2, vs + vs2)
  {
    forall k: nat ensures Same(i, Crash(d, ws + ws2, k), Crash(e, vs + vs2, k)) {
      if k <= |ws| {
        CrashFirst(d, ws, ws2, k);
        CrashFirst(e, vs, vs2, k);
      } else {
        CrashSecond(d, ws, ws2, k);
        CrashSecond(e, vs, vs2, k);
        assert Same(i, Crash(Run(d, ws), ws2, k - |ws|), Crash(Run(e, vs), vs2, k - |ws|));
      }
    }
  }

  lemma SameOpen(i: Bit, d: Disk, e: Disk, c: Bit, on: bool, x: Metadata, y: Metadata, cells: Cells)
    requires Same(i, d, e) && SameCopy(i, on, x, y)
    ensures Same(i, d.withCopy(c, on, x, cells), e.withCopy(c, on, y, cells))
  {
    if c == 0 {
      assert d.withCopy(c, on, x, cells) == d.(dirty0 := on, m0 := x, cells0 := cells);
      assert e.withCopy(c, on, y, cells) == e.(dirty0 := on, m0 := y, cells0 := cells);
    } else {
      assert d.withCopy(c, on, x, cells) == d.(dirty1 := on, m1 := x, cells1 := cells);
      assert e.withCopy(c, on, y, cells) == e.(dirty1 := on, m1 := y, cells1 := cells);
    }
  }

  lemma ScopeTracks(i: Bit, d: Disk, e: Disk, c: Bit, ws: seq<Write>, vs: seq<Write>)
    requires Same(i, d, e) && Inside(c, ws) && Inside(c, vs) && SimWrites(i, ws, vs)
    requires MetaEffect(d.meta(c), ws).active ==> MetaEffect(d.meta(c), ws) == MetaEffect(e.meta(c), vs)
    ensures Tracks(i, d, e, Scope(c, ws), Scope(c, vs))
  {
    forall k: nat ensures Same(i, Crash(d, Scope(c, ws), k), Crash(e, Scope(c, vs), k)) {
      if 0 < k < |Scope(c, ws)| {
        ScopeOpenTracks(i, d, e, c, ws, vs, k);
      } else if k > 0 {
        ScopeClosedTracks(i, d, e, c, ws, vs);
        CrashWhole(d, Scope(c, ws), k);
        CrashWhole(e, Scope(c, vs), k);
      }
    }
  }

  lemma ScopeOpenTracks(i: Bit, d: Disk, e: Disk, c: Bit, ws: seq<Write>, vs: seq<Write>, k: nat)
    requires Same(i, d, e) && Inside(c, ws) && Inside(c, vs) && SimWrites(i, ws, vs) && 0 < k < |Scope(c, ws)|
    ensures Same(i, Crash(d, Scope(c, ws), k), Crash(e, Scope(c, vs), k))
  {
    var x, y := d.meta(c), e.meta(c);
    ScopeOpen(d, c, ws, k);
    ScopeOpen(e, c, vs, k);
    SimEffect(i, x, y, d.cells(c), ws[..k - 1], vs[..k - 1]);
    SameOpen(i, d, e, c, true, MetaEffect(x, ws[..k - 1]), MetaEffect(y, vs[..k - 1]),
             CellsEffect(d.cells(c), ws[..k - 1]));
  }

  lemma ScopeClosedTracks(i: Bit, d: Disk, e: Disk, c: Bit, ws: seq<Write>, vs: seq<Write>)
    requires Same(i, d, e) && Inside(c, ws) && Inside(c, vs) && SimWrites(i, ws, vs)
    requires MetaEffect(d.meta(c), ws).active ==> MetaEffect(d.meta(c), ws) == MetaEffect(e.meta(c), vs)
    ensures Same(i, Run(d, Scope(c, ws)), Run(e, Scope(c, vs)))
  {
    ScopeClosed(d, c, ws);
    ScopeClosed(e, c, vs);
    SimEffect(i, d.meta(c), e.meta(c), d.cells(c), ws, vs);
    SameOpen(i, d, e, c, false, MetaEffect(d.meta(c), ws), MetaEffect(e.meta(c), vs), CellsEffect(d.cells(c), ws));
  }

  lemma NothingTracks(i: Bit, d: Disk, e: Disk)
    requires Same(i, d, e)
    ensures Tracks(i, d, e, [], [])
  {
    forall k: nat ensures Same(i, Crash(d, [], k), Crash(e, [], k)) {
      assert Crash(d, [], k) == d && Crash(e, [], k) == e;
    }
  }

  // ---------------------------------------------------------------- the parts of the programs

  lemma SameWrites(i: Bit, ws: seq<Write>)
    ensures SimWrites(i, ws, ws)
  {
  }

  /** A scope with the same stores on both sides, none of them to the active flag. */
  lemma PlainScope(i: Bit, d: Disk, e: Disk, c: Bit, ws: seq<Write>)
    requires Same(i, d, e) && !d.dirty(c) && Inside(c, ws)
    requires forall w :: w in ws && w.Store? ==> !w.f.ActiveFlag?
    ensures Tracks(i, d, e, Scope(c, ws), Scope(c, ws))
  {
    SameWrites(i, ws);
    EffectActive(d.meta(c), ws);
    ScopeTracks(i, d, e, c, ws, ws);
  }

  lemma {:induction false} EffectActive(m: Metadata, ws: seq<Write>)
    requires forall w :: w in ws && w.Store? ==> !w.f.ActiveFlag?
    ensures MetaEffect(m, ws).active == m.active
  {
    if ws != [] {
      EffectActive(m, ws[..|ws| - 1]);
    }
  }

  lemma PendingTracks(i: Bit, d: Disk, e: Disk, op: OpKind, n: nat)
    requires Same(i, d, e) && Clean(d)
    ensures Tracks(i, d, e, Stamp(op, n), Stamp(op, n))
    ensures Clean(Run(d, Stamp(op, n)))
  {
    var i0 := [Store(0, PendingKind(op)), Store(0, PendingParam(n))];
    var i1 := [Store(1, PendingKind(op)), Store(1, PendingParam(n))];
    var d1, e1 := Run(d, Scope(0, i0)), Run(e, Scope(0, i0));
    PlainScope(i, d, e, 0, i0);
    TracksRun(i, d, e, Scope(0, i0), Scope(0, i0));
    ScopeClosed(d, 0, i0);
    PlainScope(i, d1, e1, 1, i1);
    TracksAppend(i, d, e, Scope(0, i0), Scope(0, i0), Scope(1, i1), Scope(1, i1));
    ScopeClosed(d1, 1, i1);
    RunAppend(d, Scope(0, i0), Scope(1, i1));
  }

  lemma HistoryTracks(i: Bit, d: Disk, e: Disk, h: nat)
    requires Same(i, d, e) && Clean(d)
    ensures var ws := Scope(0, [Store(0, HistoryLength(h))]) + Scope(1, [Store(1, HistoryLength(h))]);
            Tracks(i, d, e, ws, ws) && Clean(Run(d, ws))
  {
    var i0, i1 := [Store(0, HistoryLength(h))], [Store(1, HistoryLength(h))];
    var d1, e1 := Run(d, Scope(0, i0)), Run(e, Scope(0, i0));
    PlainScope(i, d, e, 0, i0);
    TracksRun(i, d, e, Scope(0, i0), Scope(0, i0));
    ScopeClosed(d, 0, i0);
    PlainScope(i, d1, e1, 1, i1);
    TracksAppend(i, d, e, Scope(0, i0), Scope(0, i0), Scope(1, i1), Scope(1, i1));
    ScopeClosed(d1, 1, i1);
    RunAppend(d, Scope(0, i0), Scope(1, i1));
  }

  // ---------------------------------------------------------------- the body

  lemma {:induction false} MovesSame(i: Bit, c: Bit, x: Metadata, y: Metadata, from: Bit, fromBase: nat, to: Bit,
                                     toBase: nat, n: nat)
    requires Mask(i, x) == Mask(i, y)
    ensures MoveSlots(c, x, from, fromBase, to, toBase, n) == MoveSlots(c, y, from, fromBase, to, toBase, n)
    ensures MovedIds(x, from, fromBase, to, toBase, n) == MovedIds(y, from, fromBase, to, toBase, n)
  {
    SlotsSame(i, x, y, from);
    SlotsSame(i, x, y, to);
    if n > 0 {
      MovesSame(i, c, x, y, from, fromBase, to, toBase, n - 1);
    }
  }

  lemma SlotsSame(i: Bit, x: Metadata, y: Metadata, r: Bit)
    requires Mask(i, x) == Mask(i, y)
    ensures x.ring(r).slots == y.ring(r).slots && x.ring(r).len == y.ring(r).len
    ensures x.ring(1 - i) == y.ring(1 - i)
  {
    assert Mask(i, x).ring(r).slots == x.ring(r).slots && Mask(i, y).ring(r).slots == y.ring(r).slots;
    assert Mask(i, x).ring(r).len == x.ring(r).len && Mask(i, y).ring(r).len == y.ring(r).len;
    assert Mask(i, x).ring(1 - i) == x.ring(1 - i) && Mask(i, y).ring(1 - i) == y.ring(1 - i);
  }

  /** The body of activation reads the lists of both rings and the bounds of the primary only. */
  lemma InnerSame(c: Bit, x: Metadata, y: Metadata, mx: Metadata, my: Metadata, pi: Bit, cells: Cells, e: Pos, n: Pos)
    requires Mask(1 - pi, x) == Mask(1 - pi, y) && Mask(1 - pi, mx) == Mask(1 - pi, my)
    ensures ActivateInner(c, x, mx, pi, cells, e, n) == ActivateInner(c, y, my, pi, cells, e, n)
  {
    SlotsSame(1 - pi, x, y, pi);
    SlotsSame(1 - pi, mx, my, pi);
    MovesSame(1 - pi, c, x, y, 1 - pi, 0, pi, n, n);
    MovesSame(1 - pi, c, x, y, pi, n, 1 - pi, 0, n);
  }

  /** It ends with both bounds of the secondary ring at zero. */
  lemma CommitEqual(c: Bit, x: Metadata, y: Metadata, pi: Bit, n: nat)
    requires Mask(1 - pi, x) == Mask(1 - pi, y)
    ensures MetaEffect(x, ActivateCommit(c, pi, n)) == MetaEffect(y, ActivateCommit(c, pi, n))
  {
    SlotsSame(1 - pi, x, y, 1 - pi);
    Steps5(x, ActivateCommit(c, pi, n));
    Steps5(y, ActivateCommit(c, pi, n));
  }

  lemma InnerEqual(c: Bit, x: Metadata, y: Metadata, mx: Metadata, my: Metadata, pi: Bit, cells: Cells, e: Pos, n: Pos)
    requires Mask(1 - pi, x) == Mask(1 - pi, y) && Mask(1 - pi, mx) == Mask(1 - pi, my)
    ensures var ws := ActivateInner(c, x, mx, pi, cells, e, n);
            ws == ActivateInner(c, y, my, pi, cells, e, n) && MetaEffect(x, ws) == MetaEffect(y, ws)
  {
    var front := ActivateFront(c, x, mx, pi, cells, e, n) + ActivateBlank(c, x, pi, e, n);
    var commit := ActivateCommit(c, pi, n);
    InnerSame(c, x, y, mx, my, pi, cells, e, n);
    EffectAppend(x, cells, front, commit);
    EffectAppend(y, cells, front, commit);
    SameWrites(1 - pi, front);
    SimEffect(1 - pi, x, y, cells, front, front);
    CommitEqual(c, MetaEffect(x, front), MetaEffect(y, front), pi, n);
  }

  lemma BodyScopeTracks(i: Bit, d: Disk, e: Disk, x: Disk, y: Disk, c: Bit, n: Pos)
    requires Same(i, d, e) && Same(i, x, y) && d.m0.primary == 1 - i
    requires d.meta(c) == x.meta(c) && d.cells(c) == x.cells(c) && e.meta(c) == y.meta(c)
    ensures Tracks(i, x, y, BodyScope(Activate, d, d.m0, c, n), BodyScope(Activate, e, e.m0, c, n))
    ensures OtherKept(x, Run(x, BodyScope(Activate, d, d.m0, c, n)), c)
  {
    var ws := Inner(Activate, c, d.meta(c), d.m0, d.m0.primary, d.cells(c), d.entries, n);
    SameCopies(i, d, e, c);
    InnerEqual(c, d.meta(c), e.meta(c), d.m0, e.m0, 1 - i, d.cells(c), d.entries, n);
    InnerInside(Activate, c, d.meta(c), d.m0, d.m0.primary, d.cells(c), d.entries, n);
    EqualScope(i, x, y, c, ws);
  }

  /** The scope's copy is clean, the other one as it was. */
  predicate OtherKept(x: Disk, r: Disk, c: Bit) {
    && !r.dirty(c) && r.dirty(1 - c) == x.dirty(1 - c)
    && r.meta(1 - c) == x.meta(1 - c) && r.cells(1 - c) == x.cells(1 - c)
  }

  lemma SameCopies(i: Bit, d: Disk, e: Disk, c: Bit)
    requires Same(i, d, e)
    ensures Mask(i, d.meta(c)) == Mask(i, e.meta(c)) && d.cells(c) == e.cells(c)
    ensures d.m0.primary == e.m0.primary && d.entries == e.entries
  {
  }

  lemma EqualScope(i: Bit, x: Disk, y: Disk, c: Bit, ws: seq<Write>)
    requires Same(i, x, y) && Inside(c, ws) && MetaEffect(x.meta(c), ws) == MetaEffect(y.meta(c), ws)
    ensures Tracks(i, x, y, Scope(c, ws), Scope(c, ws)) && OtherKept(x, Run(x, Scope(c, ws)), c)
  {
    SameWrites(i, ws);
    ScopeTracks(i, x, y, c, ws, ws);
    ScopeClosed(x, c, ws);
  }

  lemma ScopesTrack(i: Bit, d: Disk, e: Disk, n: Pos)
    requires Same(i, d, e) && Clean(d) && d.m0.primary == 1 - i
    ensures var ws := BodyScope(Activate, d, d.m0, 0, n) + BodyScope(Activate, d, d.m0, 1, n);
            var vs := BodyScope(Activate, e, e.m0, 0, n) + BodyScope(Activate, e, e.m0, 1, n);
            Tracks(i, d, e, ws, vs) && Clean(Run(d, ws))
  {
    var ws0, vs0 := BodyScope(Activate, d, d.m0, 0, n), BodyScope(Activate, e, e.m0, 0, n);
    var ws1, vs1 := BodyScope(Activate, d, d.m0, 1, n), BodyScope(Activate, e, e.m0, 1, n);
    BodyScopeTracks(i, d, e, d, e, 0, n);
    BodyScopeTracks(i, e, d, e, d, 0, n);
    TracksRun(i, d, e, ws0, vs0);
    BodyScopeTracks(i, d, e, Run(d, ws0), Run(e, vs0), 1, n);
    TracksAppend(i, d, e, ws0, vs0, ws1, vs1);
    RunAppend(d, ws0, ws1);
  }

  lemma BodyTracks(i: Bit, d: Disk, e: Disk, n: Pos)
    requires Same(i, d, e) && Clean(d) && d.m0.primary == 1 - i
    ensures Tracks(i, d, e, Body(Activate, d, n), Body(Activate, e, n)) && Clean(Run(d, Body(Activate, d, n)))
  {
    var ws := BodyScope(Activate, d, d.m0, 0, n) + BodyScope(Activate, d, d.m0, 1, n);
    var vs := BodyScope(Activate, e, e.m0, 0, n) + BodyScope(Activate, e, e.m0, 1, n);
    var hs := HistoryWrites(Activate, d, n);
    ScopesTrack(i, d, e, n);
    TracksRun(i, d, e, ws, vs);
    assert hs == HistoryWrites(Activate, e, n);
    if hs == [] {
      NothingTracks(i, Run(d, ws), Run(e, vs));
    } else {
      HistoryTracks(i, Run(d, ws), Run(e, vs), Max(Cap(n, d.entries), MIN_HISTORY_LENGTH));
    }
    TracksAppend(i, d, e, ws, vs, hs, hs);
    RunAppend(d, ws, hs);
  }

  lemma FinishTracks(i: Bit, d: Disk, e: Disk, n: Pos)
    requires Same(i, d, e) && Clean(d) && d.m0.primary == 1 - i
    ensures Tracks(i, d, e, Body(Activate, d, n) + Clear(), Body(Activate, e, n) + Clear())
  {
    var ws, vs := Body(Activate, d, n), Body(Activate, e, n);
    BodyTracks(i, d, e, n);
    TracksRun(i, d, e, ws, vs);
    PendingTracks(i, Run(d, ws), Run(e, vs), NoOp, 0);
    TracksAppend(i, d, e, ws, vs, Clear(), Clear());
  }

  // ---------------------------------------------------------------- recovery

  lemma SimAppend(i: Bit, a: seq<Write>, b: seq<Write>, x: seq<Write>, y: seq<Write>)
    requires SimWrites(i, a, b) && SimWrites(i, x, y)
    ensures SimWrites(i, a + x, b + y)
  {
  }

  lemma RingStoresSim(i: Bit, c: Bit, r: Bit, x: Ring, y: Ring)
    requires x.len == y.len && x.slots == y.slots && x.autoExpire == y.autoExpire && (r != i ==> x == y)
    ensures SimWrites(i, RingStores(c, r, x), RingStores(c, r, y))
  {
    var hx := [Store(c, LowerBound(r, x.lowerBound)), Store(c, NextVersion(r, 0)), Store(c, ChunksLen(r, x.len))];
    var hy := [Store(c, LowerBound(r, y.lowerBound)), Store(c, NextVersion(r, 0)), Store(c, ChunksLen(r, y.len))];
    var rest := SlotStores(c, r, x.slots, SLOTS);
    SameWrites(i, rest);
    SimAppend(i, hx, hy, rest, rest);
    var expire := [Store(c, AutoExpire(r, x.autoExpire))];
    SimAppend(i, hx + rest, hy + rest, expire, expire);
  }

  lemma CopySim(i: Bit, c: Bit, s: Metadata, t: Metadata)
    requires Mask(i, s) == Mask(i, t)
    ensures SimWrites(i, CopyInner(c, s), CopyInner(c, t))
  {
    var zero := [Store(c, NextVersion(0, 0)), Store(c, NextVersion(1, 0))];
    var mid := MiddleStores(c, s);
    assert mid == MiddleStores(c, t);
    SameWrites(i, zero);
    SameWrites(i, mid);
    RingStoresSim(i, c, 0, s.a, t.a);
    RingStoresSim(i, c, 1, s.b, t.b);
    SimAppend(i, zero, zero, RingStores(c, 0, s.a), RingStores(c, 0, t.a));
    SimAppend(i, zero + RingStores(c, 0, s.a), zero + RingStores(c, 0, t.a), mid, mid);
    SimAppend(i, CopyFront(c, s), CopyFront(c, t), RingStores(c, 1, s.b), RingStores(c, 1, t.b));
    SimAppend(i, CopyFront(c, s) + RingStores(c, 1, s.b), CopyFront(c, t) + RingStores(c, 1, t.b),
              LastStores(c, s), LastStores(c, t));
  }

  lemma RestoreTracks(i: Bit, d: Disk, e: Disk)
    requires Same(i, d, e) && !(d.dirty0 && d.dirty1)
    ensures Tracks(i, d, e, Restore(d), Restore(e))
  {
    if Clean(d) {
      NothingTracks(i, d, e);
    } else {
      var c: Bit := if d.dirty0 then 0 else 1;
      var s, t := d.meta(1 - c), e.meta(1 - c);
      CopySim(i, c, s, t);
      CopyInnerEffect(c, s, d.meta(c));
      CopyInnerEffect(c, t, e.meta(c));
      ScopeTracks(i, d, e, c, CopyInner(c, s), CopyInner(c, t));
    }
  }

  lemma ReplayTracks(o: Disk, i: Bit, d: Disk, e: Disk)
    requires Clean(e) && Shape(Activate, o, e) && Same(i, d, e) && e.m0.primary == 1 - i && N(Activate, o) > 0
    ensures Tracks(i, d, e, Replay(d), Replay(e))
  {
    if Intent(e) {
      FinishTracks(i, d, e, N(Activate, o));
    } else {
      NothingTracks(i, d, e);
    }
  }

  lemma RestoredTracks(o: Disk, i: Bit, d: Disk, e: Disk)
    requires Shape(Activate, o, e) && Same(i, d, e)
    ensures var d1, e1 := Run(d, Restore(d)), Run(e, Restore(e));
            Tracks(i, d, e, Restore(d), Restore(e)) && Same(i, d1, e1) && Clean(e1) && Shape(Activate, o, e1)
  {
    RestoreTracks(i, d, e);
    TracksRun(i, d, e, Restore(d), Restore(e));
    RestoreDone(e);
  }

  lemma ShapePrimary(o: Disk, total: nat, e: Disk)
    requires Quiescent(Activate, o, total) && Shape(Activate, o, e)
    ensures View(e, 0).primary == o.m0.primary && N(Activate, o) > 0
  {
    PhaseFacts(Activate, o.m0, o.m0, total, o.entries);
  }

  /** Opening either disk: the recoveries go side by side. */
  lemma RecoveryTracks(o: Disk, total: nat, i: Bit, d: Disk, e: Disk)
    requires Quiescent(Activate, o, total) && Shape(Activate, o, e) && Same(i, d, e) && o.m0.primary == 1 - i
    ensures Tracks(i, d, e, Recovery(d), Recovery(e))
  {
    var d1, e1 := Run(d, Restore(d)), Run(e, Restore(e));
    RestoredTracks(o, i, d, e);
    ShapePrimary(o, total, e1);
    ReplayTracks(o, i, d1, e1);
    TracksAppend(i, d, e, Restore(d), Restore(e), Replay(d1), Replay(e1));
  }

  // ---------------------------------------------------------------- all runs

  /** The disk whose copy 1 takes the idle bounds of copy 0. */
  function Aligned(o: Disk): Disk {
    var i, m := 1 - o.m0.primary, o.m1;
    var r := o.m0.ring(i);
    o.(m1 := m.withRing(i, m.ring(i).(lowerBound := r.lowerBound, nextVersion := r.nextVersion)))
  }

  lemma AlignedSame(o: Disk, total: nat)
    requires Callable(Activate, o, total)
    ensures Same(1 - o.m0.primary, o, Aligned(o))
  {
  }

  lemma OperationTracks(i: Bit, d: Disk, e: Disk, total: nat)
    requires Same(i, d, e) && AtRest(d) && d.m0 == e.m0 && d.m0.primary == 1 - i
    requires Ready(Activate, d.m0, total, d.entries)
    ensures Tracks(i, d, e, Operation(Activate, d), Operation(Activate, e))
  {
    var n := Target(Activate, d.m0);
    var st := Stamp(Activate, n);
    var d1, e1 := Run(d, st), Run(e, st);
    PhaseFacts(Activate, d.m0, d.m0, total, d.entries);
    PendingTracks(i, d, e, Activate, n);
    TracksRun(i, d, e, st, st);
    PendingCopy0(d, d, Activate, n);
    FinishTracks(i, d1, e1, n);
    TracksAppend(i, d, e, st, st, Body(Activate, d1, n) + Clear(), Body(Activate, e1, n) + Clear());
    Regroup(st, Body(Activate, d1, n), [], Clear());
    Regroup(st, Body(Activate, e1, n), [], Clear());
  }

  lemma {:induction false} RunTracks(o: Disk, p: Disk, total: nat, i: Bit, k: nat, ks: seq<nat>)
    requires Quiescent(Activate, p, total) && AtRest(o) && Same(i, o, p) && o.m0 == p.m0 && p.m0.primary == 1 - i
    ensures Same(i, RunTo(Activate, o, k, ks), RunTo(Activate, p, k, ks))
  {
    if ks == [] {
      OperationTracks(i, o, p, total);
    } else {
      var n := |ks| - 1;
      var d, e := RunTo(Activate, o, k, ks[..n]), RunTo(Activate, p, k, ks[..n]);
      RunTracks(o, p, total, i, k, ks[..n]);
      RunShape(Activate, p, total, k, ks[..n]);
      RecoveryTracks(p, total, i, d, e);
      assert Same(i, Crash(d, Recovery(d), ks[n]), Crash(e, Recovery(e), ks[n]));
    }
  }

  lemma SameAnswer(i: Bit, d: Disk, e: Disk)
    requires Same(i, d, e) && Clean(d) && d.m0.primary == 1 - i
    ensures SameAnswers(d, e)
  {
    if d.m0.active {
      assert d.m0 == e.m0;
    } else {
      SlotsSame(i, d.m0, e.m0, i);
      assert forall t: Bit :: Capacity(d, t) == Capacity(e, t);
      assert forall t: Bit, v: nat :: RootOffsetAt(d, t, v) == RootOffsetAt(e, t, v);
    }
  }

  lemma SameTwice(d: Disk, e: Disk, x: Disk, y: Disk)
    requires SameAnswers(d, e) && SameAnswers(x, y)
    ensures SameAnswers(d, x) <==> SameAnswers(e, y)
  {
  }

  lemma RecoveredTracks(o: Disk, p: Disk, total: nat, i: Bit, k: nat, ks: seq<nat>)
    requires Quiescent(Activate, p, total) && AtRest(o) && Same(i, o, p) && o.m0 == p.m0 && p.m0.primary == 1 - i
    ensures SameAnswers(Recovered(RunTo(Activate, o, k, ks)), Recovered(RunTo(Activate, p, k, ks)))
  {
    var d, e := RunTo(Activate, o, k, ks), RunTo(Activate, p, k, ks);
    RunTracks(o, p, total, i, k, ks);
    RunShape(Activate, p, total, k, ks);
    RecoveryTracks(p, total, i, d, e);
    TracksRun(i, d, e, Recovery(d), Recovery(e));
    RecoveredClean(p, total, e);
    SameAnswer(i, Recovered(d), Recovered(e));
  }

  lemma RecoveredClean(p: Disk, total: nat, e: Disk)
    requires Quiescent(Activate, p, total) && Shape(Activate, p, e)
    ensures Clean(Recovered(e)) && Recovered(e).m0.primary == p.m0.primary
  {
    RecoveryExact(Activate, p, total, e);
    PhaseFacts(Activate, p.m0, p.m0, total, p.entries);
    assert InPre(p, Recovered(e).m0) || InPost(Activate, p, Recovered(e).m0);
  }

  lemma CompleteTracks(o: Disk, p: Disk, total: nat, i: Bit)
    requires Quiescent(Activate, p, total) && AtRest(o) && Same(i, o, p) && o.m0 == p.m0 && p.m0.primary == 1 - i
    ensures SameAnswers(Complete(Activate, o), Complete(Activate, p))
  {
    OperationTracks(i, o, p, total);
    TracksRun(i, o, p, Operation(Activate, o), Operation(Activate, p));
    CompleteIs(Activate, p, total);
    PhaseFacts(Activate, p.m0, p.m0, total, p.entries);
    SameAnswer(i, Complete(Activate, o), Complete(Activate, p));
  }

  lemma AtomicAligned(o: Disk, total: nat, k: nat, ks: seq<nat>)
    requires Callable(Activate, o, total) && Quiescent(Activate, Aligned(o), total)
    ensures Atomic(Activate, o, RunTo(Activate, o, k, ks))
            <==> Atomic(Activate, Aligned(o), RunTo(Activate, Aligned(o), k, ks))
  {
    var p, i := Aligned(o), 1 - o.m0.primary;
    var d, e := Recovered(RunTo(Activate, o, k, ks)), Recovered(RunTo(Activate, p, k, ks));
    AlignedSame(o, total);
    RecoveredTracks(o, p, total, i, k, ks);
    CompleteTracks(o, p, total, i);
    SameAnswer(i, o, p);
    SameTwice(d, e, o, p);
    SameTwice(d, e, Complete(Activate, o), Complete(Activate, p));
  }

  lemma AlignedQuiescent(o: Disk, total: nat)
    requires Callable(Activate, o, total) && SameAnswers(Swayed(o), o)
    ensures Quiescent(Activate, Aligned(o), total) && SameLengths(Aligned(o))
  {
    var p, i := Aligned(o), 1 - o.m0.primary;
    RingFromAnswers(o, 0);
    assert AutoExpireOf(Swayed(o).m0, 1) == AutoExpireOf(o.m0, 1);
    NormFromRings(p.m0, p.m1);
  }

  lemma AllAligned(o: Disk, total: nat)
    requires Callable(Activate, o, total) && Quiescent(Activate, Aligned(o), total)
    ensures (forall k, ks :: Atomic(Activate, o, RunTo(Activate, o, k, ks)))
            <==> forall k, ks :: Atomic(Activate, Aligned(o), RunTo(Activate, Aligned(o), k, ks))
  {
    forall k, ks
      ensures Atomic(Activate, o, RunTo(Activate, o, k, ks))
              <==> Atomic(Activate, Aligned(o), RunTo(Activate, Aligned(o), k, ks))
    {
      AtomicAligned(o, total, k, ks);
    }
  }

  lemma HarmlessAligned(o: Disk, p: Disk)
    requires o.m0 == p.m0 && o.cells0 == p.cells0 && o.entries == p.entries
    ensures Harmless(o) <==> Harmless(p)
    ensures NoCap(o) <==> NoCap(p)
  {
    assert forall u :: Readable(o, u) <==> Readable(p, u);
    assert forall w :: Overwritten(o, w) <==> Overwritten(p, w);
  }

  /** Activation on copies with the same chunk lists is atomic over all runs exactly when it writes over no readable
      version, has no history length to cap, and copy 1 answers every query as copy 0 does. */
  lemma ActivateAtomicExactly(o: Disk, total: nat)
    requires Callable(Activate, o, total)
    ensures (forall k, ks :: Atomic(Activate, o, RunTo(Activate, o, k, ks))) <==>
            Harmless(o) && NoCap(o) && SameAnswers(Swayed(o), o)
  {
    if SameAnswers(Swayed(o), o) {
      AlignedQuiescent(o, total);
      ActivateAtomicIff(Aligned(o), total);
      AllAligned(o, total);
      HarmlessAligned(o, Aligned(o));
    } else {
      SwayedNotAtomic(Activate, o, total);
      assert !Atomic(Activate, o, RunTo(Activate, o, 1, []));
    }
  }
}
