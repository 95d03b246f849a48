/**
 The calls on the primary timeline as stores into both copies: what they do to any disk, and
 what an open finds when the process died in one of them.
 */
module ClientCalls {
  import opened Disk
  import opened Programs
  import opened Arithmetic
  import opened Phases
  import opened CrashSafety
  import opened Lifecycle
  import opened Agreement
  import opened CrashTheorems
  import RO = RootOffsets
  import RC = RingCalls

  // ---------------------------------------------------------------- a ring of a copy

  function Stored(cells: Cells, slots: seq<nat>, e: Pos, cap: nat): seq<Offset> {
    seq(cap, (p: nat) => At(cells, Locate(slots, e, p)))
  }

  /** Ring `i` of a header and its entries, as the delegator sees them. */
  function RingIn(m: Metadata, cells: Cells, i: Bit, e: Pos): RO.RingState {
    var r := m.ring(i);
    RO.RingState(r.lowerBound, r.nextVersion, Stored(cells, r.slots, e, Cap(r.len, e)))
  }

  /** The primary ring of a copy; its index is read from copy 0. */
  function RingAt(d: Disk, c: Bit): RO.RingState {
    RingIn(d.meta(c), d.cells(c), d.m0.primary, d.entries)
  }

  /** The chunks of ring `i`. */
  function Chunks(m: Metadata, i: Bit): seq<nat> {
    if m.ring(i).len <= SLOTS then m.ring(i).slots[..m.ring(i).len] else m.ring(i).slots
  }

  /** A ring that a call can work on: some chunks, no two the same. */
  predicate Served(m: Metadata, i: Bit) {
    0 < m.ring(i).len <= SLOTS && Distinct(Chunks(m, i))
  }

  /** A header whose ring `i` has other bounds. */
  function Bounded(m: Metadata, i: Bit, lb: nat, nv: nat): Metadata {
    m.withRing(i, m.ring(i).(lowerBound := lb, nextVersion := nv))
  }

  lemma ServedRing(m: Metadata, cells: Cells, i: Bit, e: Pos)
    requires Served(m, i)
    ensures RingIn(m, cells, i, e).cells != [] && |RingIn(m, cells, i, e).cells| == Cap(m.ring(i).len, e)
  {
    CapAdd(m.ring(i).len, 0, e);
  }

  // ---------------------------------------------------------------- ring stores as stores of a copy

  function ToWrite(c: Bit, i: Bit, slots: seq<nat>, e: Pos, s: RC.RingStore): Write {
    match s
    case SetEntry(p, o) => Cell(c, Locate(slots, e, p), o)
    case SetLower(v) => Store(c, LowerBound(i, v))
    case SetNext(v) => Store(c, NextVersion(i, v))
  }

  function ToWrites(c: Bit, i: Bit, slots: seq<nat>, e: Pos, ss: seq<RC.RingStore>): (ws: seq<Write>)
    ensures |ws| == |ss| && Inside(c, ws)
  {
    if ss == [] then []
    else ToWrites(c, i, slots, e, ss[..|ss| - 1]) + [ToWrite(c, i, slots, e, ss[|ss| - 1])]
  }

  lemma {:induction false} ToWritesPrefix(c: Bit, i: Bit, slots: seq<nat>, e: Pos, ss: seq<RC.RingStore>, j: nat)
    requires j <= |ss|
    ensures ToWrites(c, i, slots, e, ss)[..j] == ToWrites(c, i, slots, e, ss[..j])
  {
    if j == |ss| {
      assert ss[..j] == ss;
    } else {
      var n := |ss| - 1;
      ToWritesPrefix(c, i, slots, e, ss[..n], j);
      assert ss[..n][..j] == ss[..j];
    }
  }

  /** Storing at a position of the ring changes that entry of it only. */
  lemma StoredPut(cells: Cells, slots: seq<nat>, e: Pos, n: nat, p: nat, o: Offset)
    requires n <= |slots| && Distinct(slots[..n]) && p < Cap(n, e)
    ensures Stored(cells[Locate(slots, e, p) := o], slots, e, Cap(n, e)) == Stored(cells, slots, e, Cap(n, e))[p := o]
    ensures Locate(slots, e, p).0 in slots[..n]
  {
    LocateHead(slots, e, n, p);
    forall q: nat | q < Cap(n, e) && q != p ensures Locate(slots, e, q) != Locate(slots, e, p) {
      LocateHead(slots, e, n, q);
      LocateDiffer(slots[..n], e, q, p);
    }
  }

  /** The entries differ in the given chunks only. */
  ghost predicate OnlyIn(ids: seq<nat>, cells: Cells, cells': Cells) {
    forall at: (nat, nat) :: at.0 !in ids ==> At(cells', at) == At(cells, at)
  }

  lemma OneWrite(c: Bit, i: Bit, e: Pos, m: Metadata, cells: Cells, s: RC.RingStore)
    requires Served(m, i) && RingIn(m, cells, i, e).cells != []
    requires s.SetEntry? ==> s.p < |RingIn(m, cells, i, e).cells|
    ensures var w := ToWrite(c, i, m.ring(i).slots, e, s);
            var m' := if w.Store? then Put(m, w.f) else m;
            var cells' := if w.Cell? then cells[w.at := w.off] else cells;
            var r := RC.PerformOne(RingIn(m, cells, i, e), s);
            m' == Bounded(m, i, r.lb, r.nv) && RingIn(m', cells', i, e) == r && OnlyIn(Chunks(m, i), cells, cells')
  {
    if s.SetEntry? {
      StoredPut(cells, m.ring(i).slots, e, m.ring(i).len, s.p, s.o);
    }
  }

  lemma BoundedTwice(m: Metadata, i: Bit, lb: nat, nv: nat, lb': nat, nv': nat)
    ensures var x := Bounded(m, i, lb, nv);
            Bounded(x, i, lb', nv') == Bounded(m, i, lb', nv') && Chunks(x, i) == Chunks(m, i)
            && x.ring(i).slots == m.ring(i).slots && (Served(x, i) <==> Served(m, i))
    ensures Bounded(m, i, m.ring(i).lowerBound, m.ring(i).nextVersion) == m
  {
  }

  lemma {:induction false} WritesPerform(c: Bit, i: Bit, e: Pos, m: Metadata, cells: Cells, ss: seq<RC.RingStore>)
    requires Served(m, i) && RingIn(m, cells, i, e).cells != [] && RC.Fits(|RingIn(m, cells, i, e).cells|, ss)
    ensures var ws := ToWrites(c, i, m.ring(i).slots, e, ss);
            var r := RC.Perform(RingIn(m, cells, i, e), ss);
            && MetaEffect(m, ws) == Bounded(m, i, r.lb, r.nv)
            && RingIn(MetaEffect(m, ws), CellsEffect(cells, ws), i, e) == r
            && OnlyIn(Chunks(m, i), cells, CellsEffect(cells, ws))
  {
    if ss == [] {
      BoundedTwice(m, i, 0, 0, 0, 0);
    } else {
      var n := |ss| - 1;
      var slots := m.ring(i).slots;
      WritesPerform(c, i, e, m, cells, ss[..n]);
      var ws := ToWrites(c, i, slots, e, ss);
      assert ws[..n] == ToWrites(c, i, slots, e, ss[..n]) && ws[n] == ToWrite(c, i, slots, e, ss[n]);
      var r := RC.Perform(RingIn(m, cells, i, e), ss[..n]);
      var r' := RC.PerformOne(r, ss[n]);
      BoundedTwice(m, i, r.lb, r.nv, r'.lb, r'.nv);
      assert ss[n] in ss;
      OneWrite(c, i, e, MetaEffect(m, ws[..n]), CellsEffect(cells, ws[..n]), ss[n]);
    }
  }

  // ---------------------------------------------------------------- the calls

  /** Both copies have a primary ring to work on. */
  predicate Ringed(d: Disk) {
    Served(d.m0, d.m0.primary) && Served(d.m1, d.m0.primary)
  }

  function CopiesAt(d: Disk): RO.Copies
    requires Ringed(d)
  {
    ServedRing(d.m0, d.cells0, d.m0.primary, d.entries);
    ServedRing(d.m1, d.cells1, d.m0.primary, d.entries);
    RO.Copies(RingAt(d, 0), RingAt(d, 1))
  }

  function CallInner(d: Disk, c: Bit, call: RO.Call): seq<Write>
    requires Ringed(d) && RC.Accepts(CopiesAt(d), call)
  {
    var i := d.m0.primary;
    ToWrites(c, i, d.meta(c).ring(i).slots, d.entries,
             if c == 0 then RC.Stores0(CopiesAt(d), call) else RC.Stores1(CopiesAt(d), call))
  }

  function CallWrites(d: Disk, call: RO.Call): seq<Write>
    requires Ringed(d) && RC.Accepts(CopiesAt(d), call)
  {
    Scope(0, CallInner(d, 0, call)) + Scope(1, CallInner(d, 1, call))
  }

  lemma InnerPerforms(d: Disk, c: Bit, call: RO.Call)
    requires Ringed(d) && RC.Accepts(CopiesAt(d), call)
    ensures var i, s := d.m0.primary, RO.Step(CopiesAt(d), call);
            var ws := CallInner(d, c, call);
            var r := if c == 0 then s.c0 else s.c1;
            && MetaEffect(d.meta(c), ws) == Bounded(d.meta(c), i, r.lb, r.nv)
            && RingIn(MetaEffect(d.meta(c), ws), CellsEffect(d.cells(c), ws), i, d.entries) == r
            && OnlyIn(Chunks(d.meta(c), i), d.cells(c), CellsEffect(d.cells(c), ws))
  {
    var cs, i, m := CopiesAt(d), d.m0.primary, d.meta(c);
    RC.StoresPerform(cs, call);
    var ss := if c == 0 then RC.Stores0(cs, call) else RC.Stores1(cs, call);
    WritesPerform(c, i, d.entries, m, d.cells(c), ss);
  }

  /** A complete call does to the ring of each copy what it does to rings, and keeps everything else, on every disk. */
  lemma CallStep(d: Disk, call: RO.Call)
    requires Clean(d) && Ringed(d) && RC.Accepts(CopiesAt(d), call)
    ensures var i, s, d' := d.m0.primary, RO.Step(CopiesAt(d), call), Run(d, CallWrites(d, call));
            && Clean(d') && d'.entries == d.entries && Ringed(d') && CopiesAt(d') == s
            && d'.m0 == Bounded(d.m0, i, s.c0.lb, s.c0.nv) && d'.m1 == Bounded(d.m1, i, s.c1.lb, s.c1.nv)
            && OnlyIn(Chunks(d.m0, i), d.cells0, d'.cells0) && OnlyIn(Chunks(d.m1, i), d.cells1, d'.cells1)
  {
    var i, s := d.m0.primary, RO.Step(CopiesAt(d), call);
    var i0, i1 := CallInner(d, 0, call), CallInner(d, 1, call);
    InnerPerforms(d, 0, call);
    InnerPerforms(d, 1, call);
    BoundedTwice(d.m0, i, s.c0.lb, s.c0.nv, 0, 0);
    BoundedTwice(d.m1, i, s.c1.lb, s.c1.nv, 0, 0);
    RunAppend(d, Scope(0, i0), Scope(1, i1));
    ScopeClosed(d, 0, i0);
    ScopeClosed(Run(d, Scope(0, i0)), 1, i1);
  }

  // ---------------------------------------------------------------- a call that dies

  lemma RestOpens(d: Disk)
    requires AtRest(d)
    ensures Recovered(d) == d
  {
    assert Restore(d) == [] && Run(d, []) == d && Replay(d) == [];
    assert Recovery(d) == [];
  }

  /** A disk with one dirty copy and no intent on the other: the open copies the clean header over the dirty one. */
  lemma DirtyOpens(d: Disk)
    requires d.dirty0 != d.dirty1 && View(d, 0).kind == NoOp
    ensures var r := Recovered(d);
            AtRest(r) && r.m0 == View(d, 0) && r.m1 == View(d, 0) && r.cells0 == d.cells0 && r.entries == d.entries
  {
    RestoreDone(d);
    var d1 := Run(d, Restore(d));
    assert Replay(d1) == [];
    assert Restore(d) + [] == Restore(d);
  }

  lemma FirstScopeCrash(d: Disk, i0: seq<Write>, k: nat)
    requires AtRest(d) && Inside(0, i0) && k < |i0| + 2
    ensures var r := Recovered(Crash(d, Scope(0, i0), k));
            && AtRest(r) && r.entries == d.entries && r.m1 == d.m1 && r.m0 == (if k == 0 then d.m0 else d.m1)
            && r.cells0 == CellsEffect(d.cells0, if k == 0 then [] else i0[..k - 1])
  {
    if k == 0 {
      RestOpens(d);
    } else {
      ScopeOpen(d, 0, i0, k);
      DirtyOpens(Crash(d, Scope(0, i0), k));
    }
  }

  lemma SecondScopeCrash(d: Disk, i1: seq<Write>, j: nat)
    requires AtRest(d) && Inside(1, i1) && MetaEffect(d.m1, i1).kind == NoOp
    ensures var r := Recovered(Crash(d, Scope(1, i1), j));
            && AtRest(r) && r.entries == d.entries && r.m0 == d.m0 && r.cells0 == d.cells0
            && r.m1 == (if j == 0 then d.m1 else if j < |i1| + 2 then d.m0 else MetaEffect(d.m1, i1))
  {
    if j == 0 {
      RestOpens(d);
    } else if j < |i1| + 2 {
      ScopeOpen(d, 1, i1, j);
      DirtyOpens(Crash(d, Scope(1, i1), j));
    } else {
      CrashWhole(d, Scope(1, i1), j);
      ScopeClosed(d, 1, i1);
      RestOpens(Run(d, Scope(1, i1)));
    }
  }

  /** Two scopes, one per copy, that die in the first: copy 1 is reinstated over the entries stored so far. */
  lemma EarlyCrash(d: Disk, i0: seq<Write>, i1: seq<Write>, k: nat)
    requires AtRest(d) && Inside(0, i0) && k < |i0| + 2
    ensures var r := Recovered(Crash(d, Scope(0, i0) + Scope(1, i1), k));
            && AtRest(r) && r.entries == d.entries && r.m1 == d.m1 && r.m0 == (if k == 0 then d.m0 else d.m1)
            && r.cells0 == CellsEffect(d.cells0, if k == 0 then [] else i0[..k - 1])
  {
    CrashFirst(d, Scope(0, i0), Scope(1, i1), k);
    FirstScopeCrash(d, i0, k);
  }

  /** Or after it: copy 0 is through, and copy 1 is as it was, or a copy of copy 0, or through as well. */
  lemma LateCrash(d: Disk, i0: seq<Write>, i1: seq<Write>, k: nat)
    requires AtRest(d) && Inside(0, i0) && Inside(1, i1) && |i0| + 2 <= k
    requires MetaEffect(d.m0, i0).kind == NoOp && MetaEffect(d.m1, i1).kind == NoOp
    ensures var r, n0 := Recovered(Crash(d, Scope(0, i0) + Scope(1, i1), k)), |i0| + 2;
            && AtRest(r) && r.entries == d.entries
            && r.m0 == MetaEffect(d.m0, i0) && r.cells0 == CellsEffect(d.cells0, i0)
            && r.m1 == (if k == n0 then d.m1 else if k < n0 + |i1| + 2 then r.m0 else MetaEffect(d.m1, i1))
  {
    var d1, j := Run(d, Scope(0, i0)), k - (|i0| + 2);
    ThroughFirst(d, i0);
    AfterFirst(d, i0, i1, k, j);
    SecondScopeCrash(d1, i1, j);
  }

  lemma ThroughFirst(d: Disk, i0: seq<Write>)
    requires AtRest(d) && Inside(0, i0) && MetaEffect(d.m0, i0).kind == NoOp
    ensures var d1 := Run(d, Scope(0, i0));
            && AtRest(d1) && d1.entries == d.entries && d1.m0 == MetaEffect(d.m0, i0)
            && d1.cells0 == CellsEffect(d.cells0, i0) && d1.m1 == d.m1
  {
    ScopeClosed(d, 0, i0);
  }

  lemma AfterFirst(d: Disk, i0: seq<Write>, i1: seq<Write>, k: nat, j: nat)
    requires k == |i0| + 2 + j
    ensures Crash(d, Scope(0, i0) + Scope(1, i1), k) == Crash(Run(d, Scope(0, i0)), Scope(1, i1), j)
  {
    CrashSecond(d, Scope(0, i0), Scope(1, i1), k);
  }

  // ---------------------------------------------------------------- what queries see of it

  predicate InBounds(r: RO.RingState) {
    r.lb <= r.nv <= INVALID_BLOCK_NUM
  }

  /** A disk that differs from `d` in the primary ring of copy 0 only, as far as queries can tell. */
  ghost predicate Variant(d: Disk, x: Disk) {
    var i := d.m0.primary;
    && x.entries == d.entries && x.m0.historyLength == d.m0.historyLength
    && Norm(x.m0) == Norm(Bounded(d.m0, i, x.m0.ring(i).lowerBound, x.m0.ring(i).nextVersion))
    && OnlyIn(Chunks(d.m0, i), d.cells0, x.cells0)
  }

  lemma VariantHeader(d: Disk, x: Disk)
    requires Variant(d, x)
    ensures x.m0.primary == d.m0.primary && x.m0.active == d.m0.active && x.m0.consensus == d.m0.consensus
    ensures x.m0.secondaryRing() == d.m0.secondaryRing()
    ensures x.m0.primaryRing().len == d.m0.primaryRing().len && x.m0.primaryRing().slots == d.m0.primaryRing().slots
    ensures x.m0.primaryRing().autoExpire == d.m0.primaryRing().autoExpire
  {
    var i := d.m0.primary;
    var y := Bounded(d.m0, i, x.m0.ring(i).lowerBound, x.m0.ring(i).nextVersion);
    assert Norm(x.m0).primary == Norm(y).primary && Norm(x.m0).active == Norm(y).active;
    assert Norm(x.m0).consensus == Norm(y).consensus && Norm(x.m0).a == Norm(y).a && Norm(x.m0).b == Norm(y).b;
  }

  lemma SoundServed(d: Disk, total: nat)
    requires WellFormed(d.m0, total, d.entries)
    ensures Served(d.m0, d.m0.primary) && InBounds(RingAt(d, 0))
    ensures |RingAt(d, 0).cells| == Cap(d.m0.primaryRing().len, d.entries) > 0
    ensures RingAt(d, 0).cells != [] && RO.Windowed(RingAt(d, 0))
    ensures forall x :: x in Chunks(d.m0, 1 - d.m0.primary) ==> x !in Chunks(d.m0, d.m0.primary)
  {
    var p, s := d.m0.primaryRing(), d.m0.secondaryRing();
    CapAdd(p.len, 0, d.entries);
    var ids := p.slots[..p.len] + s.slots[..s.len];
    forall i, j | 0 <= i < j < p.len ensures p.slots[i] != p.slots[j] {
      assert ids[i] == p.slots[i] && ids[j] == p.slots[j];
    }
    forall i, j | 0 <= i < p.len && 0 <= j < s.len ensures p.slots[i] != s.slots[j] {
      assert ids[i] == p.slots[i] && ids[p.len + j] == s.slots[j];
    }
  }

  /** What a query on the primary timeline returns is what its ring holds. */
  lemma AnswerIsGet(x: Disk, v: nat)
    requires RingAt(x, 0).cells != [] && InBounds(RingAt(x, 0))
    ensures RootOffsetAt(x, 0, v) == RO.Get(RingAt(x, 0), v)
  {
  }

  lemma SecondaryKept(d: Disk, total: nat, x: Disk, v: nat)
    requires WellFormed(d.m0, total, d.entries) && Variant(d, x)
    ensures RootOffsetAt(x, 1, v) == RootOffsetAt(d, 1, v)
  {
    VariantHeader(d, x);
    SoundServed(d, total);
    var s := d.m0.secondaryRing();
    if d.m0.active {
      var cap := Cap(s.len, d.entries);
      if cap > 0 {
        LocateHead(s.slots, d.entries, s.len, Wrap(v, cap));
      }
    }
  }

  lemma VariantAnswers(d: Disk, total: nat, x: Disk, y: Disk)
    requires WellFormed(d.m0, total, d.entries) && Variant(d, x) && Variant(d, y)
    requires RingAt(x, 0).cells != [] && RingAt(y, 0).cells != [] && InBounds(RingAt(x, 0)) && InBounds(RingAt(y, 0))
    ensures SameAnswers(x, y) <==> RC.AnswerAlike(RingAt(x, 0), RingAt(y, 0))
  {
    VariantHeader(d, x);
    VariantHeader(d, y);
    forall v: nat
      ensures RootOffsetAt(x, 1, v) == RootOffsetAt(y, 1, v)
      ensures RootOffsetAt(x, 0, v) == RO.Get(RingAt(x, 0), v) && RootOffsetAt(y, 0, v) == RO.Get(RingAt(y, 0), v)
    {
      SecondaryKept(d, total, x, v);
      SecondaryKept(d, total, y, v);
      AnswerIsGet(x, v);
      AnswerIsGet(y, v);
    }
    VariantBounds(x, y);
  }

  lemma VariantBounds(x: Disk, y: Disk)
    requires x.entries == y.entries && x.m0.historyLength == y.m0.historyLength && x.m0.consensus == y.m0.consensus
    requires x.m0.primary == y.m0.primary && x.m0.active == y.m0.active && x.m0.secondaryRing() == y.m0.secondaryRing()
    requires x.m0.primaryRing().len == y.m0.primaryRing().len
    requires x.m0.primaryRing().autoExpire == y.m0.primaryRing().autoExpire
    requires InBounds(RingAt(x, 0)) && InBounds(RingAt(y, 0)) && RingAt(x, 0).cells != [] && RingAt(y, 0).cells != []
    requires forall v: nat :: RootOffsetAt(x, 1, v) == RootOffsetAt(y, 1, v)
    requires forall v: nat :: RootOffsetAt(x, 0, v) == RO.Get(RingAt(x, 0), v)
    requires forall v: nat :: RootOffsetAt(y, 0, v) == RO.Get(RingAt(y, 0), v)
    ensures SameAnswers(x, y) <==> RC.AnswerAlike(RingAt(x, 0), RingAt(y, 0))
  {
    var a, b := RingAt(x, 0), RingAt(y, 0);
    assert HistoryMax(x.m0, 0) == HistoryMax(y.m0, 0) <==> a.nv == b.nv;
    assert a.nv == b.nv ==>
        (RangeLowerBound(x.m0, 0) == RangeLowerBound(y.m0, 0) <==> (a.nv != 0 ==> a.lb == b.lb));
    if SameAnswers(x, y) {
      forall v: nat ensures RO.Get(a, v) == RO.Get(b, v) {
        assert RootOffsetAt(x, 0, v) == RootOffsetAt(y, 0, v);
      }
    }
    if RC.AnswerAlike(a, b) {
      forall t: Bit, v: nat ensures RootOffsetAt(x, t, v) == RootOffsetAt(y, t, v) {
        assert t == 0 || t == 1;
      }
      assert forall t: Bit :: Capacity(x, t) == Capacity(y, t);
    }
  }

  // ---------------------------------------------------------------- calls on copies that agree

  /** A disk between calls whose copies agree, the history length included. */
  ghost predicate Agreed(d: Disk, total: nat) {
    Sound(d, total) && SameLengths(d)
  }

  lemma AgreedServed(d: Disk, total: nat)
    requires Sound(d, total)
    ensures Ringed(d) && d.m0.a == d.m1.a && d.m0.b == d.m1.b && d.m0.primary == d.m1.primary
    ensures CopiesAt(d).c0.lb == CopiesAt(d).c1.lb && CopiesAt(d).c0.nv == CopiesAt(d).c1.nv
    ensures RO.Windowed(CopiesAt(d).c0) && InBounds(CopiesAt(d).c0)
  {
    assert Norm(d.m0).a == Norm(d.m1).a && Norm(d.m0).b == Norm(d.m1).b && Norm(d.m0).primary == Norm(d.m1).primary;
    SoundServed(d, total);
  }

  /** The disk an open finds after the call died with `k` stores. */
  function Reopened(d: Disk, call: RO.Call, k: nat): Disk
    requires Ringed(d) && RC.Accepts(CopiesAt(d), call)
  {
    Recovered(Crash(d, CallWrites(d, call), k))
  }

  /** The ring that queries then read. */
  function RingAfter(c: RO.Copies, call: RO.Call, k: nat): RO.LiveRing
    requires RC.Accepts(c, call)
  {
    RC.StoresPerform(c, call);
    var ss := RC.Stores0(c, call);
    if k == 0 then c.c0 else if k < |ss| + 2 then RC.RolledBack(c.c0, ss, k - 1) else RO.Step(c, call).c0
  }

  lemma BoundedSelf(m: Metadata, x: Metadata, i: Bit)
    requires Norm(x) == Norm(m)
    ensures Norm(x) == Norm(Bounded(m, i, x.ring(i).lowerBound, x.ring(i).nextVersion))
  {
    assert Norm(x).a == Norm(m).a && Norm(x).b == Norm(m).b;
    BoundedTwice(m, i, 0, 0, 0, 0);
  }

  lemma PrefixPerforms(d: Disk, call: RO.Call, j: nat)
    requires Ringed(d) && RC.Accepts(CopiesAt(d), call) && j <= |RC.Stores0(CopiesAt(d), call)|
    ensures |CallInner(d, 0, call)| == |RC.Stores0(CopiesAt(d), call)|
    ensures RC.Fits(|CopiesAt(d).c0.cells|, RC.Stores0(CopiesAt(d), call)[..j])
    ensures var cells := CellsEffect(d.cells0, CallInner(d, 0, call)[..j]);
            && OnlyIn(Chunks(d.m0, d.m0.primary), d.cells0, cells)
            && RingIn(d.m0, cells, d.m0.primary, d.entries).cells
               == RC.Perform(CopiesAt(d).c0, RC.Stores0(CopiesAt(d), call)[..j]).cells
  {
    var i, ss := d.m0.primary, RC.Stores0(CopiesAt(d), call);
    RC.StoresPerform(CopiesAt(d), call);
    ToWritesPrefix(0, i, d.m0.ring(i).slots, d.entries, ss, j);
    WritesPerform(0, i, d.entries, d.m0, d.cells0, ss[..j]);
  }

  /** Queries read the ring of the call, old, rolled back or new. */
  lemma CallOutcome(d: Disk, total: nat, call: RO.Call, k: nat)
    requires Agreed(d, total) && Ringed(d) && RC.Accepts(CopiesAt(d), call)
    ensures var r := Reopened(d, call, k);
            AtRest(r) && Variant(d, r) && RingAt(r, 0) == RingAfter(CopiesAt(d), call, k)
  {
    var i, i0, i1 := d.m0.primary, CallInner(d, 0, call), CallInner(d, 1, call);
    var r := Reopened(d, call, k);
    AgreedServed(d, total);
    InnerPerforms(d, 0, call);
    InnerPerforms(d, 1, call);
    if k < |i0| + 2 {
      EarlyCrash(d, i0, i1, k);
      var j := if k == 0 then 0 else k - 1;
      PrefixPerforms(d, call, j);
      assert r.cells0 == CellsEffect(d.cells0, i0[..j]) by { assert i0[..0] == []; }
      OldHeader(d, total, r, i);
      OldRing(d, r, call, k, j);
    } else {
      LateCrash(d, i0, i1, k);
      NewRing(d, r, call);
    }
  }

  lemma OldHeader(d: Disk, total: nat, r: Disk, i: Bit)
    requires Agreed(d, total) && (r.m0 == d.m0 || r.m0 == d.m1)
    ensures Norm(r.m0) == Norm(Bounded(d.m0, i, r.m0.ring(i).lowerBound, r.m0.ring(i).nextVersion))
    ensures r.m0.ring(i) == d.m0.ring(i) && r.m0.primary == d.m0.primary && r.m0.historyLength == d.m0.historyLength
  {
    assert Norm(d.m0).a == Norm(d.m1).a && Norm(d.m0).b == Norm(d.m1).b && Norm(d.m0).primary == Norm(d.m1).primary;
    BoundedSelf(d.m0, r.m0, i);
  }

  lemma OldRing(d: Disk, r: Disk, call: RO.Call, k: nat, j: nat)
    requires Ringed(d) && RC.Accepts(CopiesAt(d), call) && k < |RC.Stores0(CopiesAt(d), call)| + 2
    requires j == if k == 0 then 0 else k - 1
    requires r.entries == d.entries && r.m0.ring(d.m0.primary) == d.m0.primaryRing() && r.m0.primary == d.m0.primary
    requires RC.Fits(|CopiesAt(d).c0.cells|, RC.Stores0(CopiesAt(d), call)[..j])
    requires RingIn(d.m0, r.cells0, d.m0.primary, d.entries).cells
             == RC.Perform(CopiesAt(d).c0, RC.Stores0(CopiesAt(d), call)[..j]).cells
    ensures RingAt(r, 0) == RingAfter(CopiesAt(d), call, k)
  {
    var ss := RC.Stores0(CopiesAt(d), call);
    assert ss[..0] == [];
    assert RC.Perform(CopiesAt(d).c0, []) == CopiesAt(d).c0;
  }

  lemma NewRing(d: Disk, r: Disk, call: RO.Call)
    requires Ringed(d) && RC.Accepts(CopiesAt(d), call) && r.entries == d.entries
    requires r.m0 == MetaEffect(d.m0, CallInner(d, 0, call)) && r.cells0 == CellsEffect(d.cells0, CallInner(d, 0, call))
    ensures Variant(d, r) && RingAt(r, 0) == RO.Step(CopiesAt(d), call).c0
  {
    InnerPerforms(d, 0, call);
  }

  /** All or nothing for every query, when the call dies with `k` stores. */
  ghost predicate AllOrNone(d: Disk, call: RO.Call, k: nat)
    requires Ringed(d) && RC.Accepts(CopiesAt(d), call)
  {
    SameAnswers(Reopened(d, call, k), d) || SameAnswers(Reopened(d, call, k), Run(d, CallWrites(d, call)))
  }

  ghost predicate CallAtomic(d: Disk, call: RO.Call)
    requires Ringed(d) && RC.Accepts(CopiesAt(d), call)
  {
    forall k: nat :: AllOrNone(d, call, k)
  }

  lemma OutcomeAnswers(d: Disk, total: nat, call: RO.Call, k: nat)
    requires Agreed(d, total) && Ringed(d) && RC.Accepts(CopiesAt(d), call)
    requires InBounds(RO.Step(CopiesAt(d), call).c0)
    ensures var c, t := CopiesAt(d), RingAfter(CopiesAt(d), call, k);
            AllOrNone(d, call, k) <==> RC.AnswerAlike(t, c.c0) || RC.AnswerAlike(t, RO.Step(c, call).c0)
  {
    var x := Run(d, CallWrites(d, call));
    AgreedServed(d, total);
    CallOutcome(d, total, call, k);
    CompleteVariant(d, call);
    BoundedSelf(d.m0, d.m0, d.m0.primary);
    VariantAnswers(d, total, Reopened(d, call, k), d);
    VariantAnswers(d, total, Reopened(d, call, k), x);
  }

  lemma CompleteVariant(d: Disk, call: RO.Call)
    requires Clean(d) && Ringed(d) && RC.Accepts(CopiesAt(d), call)
    ensures var x := Run(d, CallWrites(d, call)); Variant(d, x) && RingAt(x, 0) == RO.Step(CopiesAt(d), call).c0
  {
    CallStep(d, call);
    assert RingAt(Run(d, CallWrites(d, call)), 0) == CopiesAt(Run(d, CallWrites(d, call))).c0;
  }

  /** A call is atomic on the disk exactly when its stores are on the ring of copy 0. */
  lemma CallAtomicIff(d: Disk, total: nat, call: RO.Call)
    requires Agreed(d, total) && Ringed(d) && RC.Accepts(CopiesAt(d), call)
    requires InBounds(RO.Step(CopiesAt(d), call).c0)
    ensures RC.Fits(|CopiesAt(d).c0.cells|, RC.Stores0(CopiesAt(d), call))
    ensures CallAtomic(d, call) <==> RC.Survives(CopiesAt(d).c0, RC.Stores0(CopiesAt(d), call))
  {
    RC.StoresPerform(CopiesAt(d), call);
    if CallAtomic(d, call) {
      AtomicSurvives(d, total, call);
    } else {
      var k: nat :| !AllOrNone(d, call, k);
      TornFails(d, total, call, k);
    }
  }

  lemma AtomicSurvives(d: Disk, total: nat, call: RO.Call)
    requires Agreed(d, total) && Ringed(d) && RC.Accepts(CopiesAt(d), call) && CallAtomic(d, call)
    requires InBounds(RO.Step(CopiesAt(d), call).c0)
    ensures RC.Fits(|CopiesAt(d).c0.cells|, RC.Stores0(CopiesAt(d), call))
    ensures RC.Survives(CopiesAt(d).c0, RC.Stores0(CopiesAt(d), call))
  {
    var r, s, ss := CopiesAt(d).c0, RO.Step(CopiesAt(d), call).c0, RC.Stores0(CopiesAt(d), call);
    RC.StoresPerform(CopiesAt(d), call);
    forall j | 0 <= j <= |ss|
      ensures RC.AnswerAlike(RC.RolledBack(r, ss, j), r) || RC.AnswerAlike(RC.RolledBack(r, ss, j), s)
    {
      OutcomeAnswers(d, total, call, j + 1);
      assert AllOrNone(d, call, j + 1);
    }
  }

  lemma TornFails(d: Disk, total: nat, call: RO.Call, k: nat)
    requires Agreed(d, total) && Ringed(d) && RC.Accepts(CopiesAt(d), call) && !AllOrNone(d, call, k)
    requires InBounds(RO.Step(CopiesAt(d), call).c0)
    ensures RC.Fits(|CopiesAt(d).c0.cells|, RC.Stores0(CopiesAt(d), call))
    ensures !RC.Survives(CopiesAt(d).c0, RC.Stores0(CopiesAt(d), call))
  {
    var c, ss := CopiesAt(d), RC.Stores0(CopiesAt(d), call);
    RC.StoresPerform(c, call);
    OutcomeAnswers(d, total, call, k);
    assert 0 < k < |ss| + 2;
    assert RingAfter(c, call, k) == RC.RolledBack(c.c0, ss, k - 1);
  }

  /** Appending: exactly when the window has room, or the entry it overwrites is the same. */
  lemma AppendAtomicIff(d: Disk, total: nat, o: Offset)
    requires Agreed(d, total) && d.m0.primaryRing().nextVersion < INVALID_BLOCK_NUM
    ensures Ringed(d)
    ensures var r := CopiesAt(d).c0;
            CallAtomic(d, RO.AppendCall(o)) <==> r.nv < r.lb + |r.cells| || RO.Entry(r, r.lb) == o
  {
    AgreedServed(d, total);
    var r := CopiesAt(d).c0;
    PushBounds(r, o);
    RC.AppendSurvivesIff(r, o);
    CallAtomicIff(d, total, RO.AppendCall(o));
  }

  lemma PushBounds(r: RO.LiveRing, o: Offset)
    requires r.lb <= r.nv < INVALID_BLOCK_NUM
    ensures InBounds(RO.Push(r, o))
  {
    var s := RO.Put(r, r.nv, o).(nv := r.nv + 1);
    RO.ScanFinds(s, s.lb, s.nv - 1);
  }

  /** Replacing or erasing a live version: exactly when that changes nothing, or neither bound. */
  lemma UpdateAtomicIff(d: Disk, total: nat, i: nat, o: Offset)
    requires Agreed(d, total) && d.m0.primaryRing().lowerBound <= i < d.m0.primaryRing().nextVersion
    ensures Ringed(d)
    ensures var r := CopiesAt(d).c0;
            CallAtomic(d, RO.UpdateCall(i, o)) <==>
            RO.Entry(r, i) == o || (RO.Update(r, i, o).lb == r.lb && RO.Update(r, i, o).nv == r.nv)
  {
    AgreedServed(d, total);
    var r := CopiesAt(d).c0;
    AssignBounds(r, i, o);
    RC.UpdateSurvivesIff(r, i, o);
    CallAtomicIff(d, total, RO.UpdateCall(i, o));
  }

  lemma AssignBounds(r: RO.LiveRing, i: nat, o: Offset)
    requires r.lb <= i < r.nv <= INVALID_BLOCK_NUM
    ensures InBounds(RO.Assign(r, i, o)) && InBounds(RO.Update(r, i, o))
  {
    var s := RO.Put(r, i, o);
    RO.ScanFinds(s, s.lb, s.nv - 1);
  }

  /** Moving forward: exactly when it drops no readable version. */
  lemma FastForwardAtomicIff(d: Disk, total: nat, v: nat)
    requires Agreed(d, total) && d.m0.primaryRing().nextVersion <= v <= INVALID_BLOCK_NUM
    ensures Ringed(d) && RC.Accepts(CopiesAt(d), RO.FastForwardCall(v))
    ensures var r := CopiesAt(d).c0;
            CallAtomic(d, RO.FastForwardCall(v)) <==> RO.View(RO.FastForward(r, v)) == RO.View(r)
  {
    AgreedServed(d, total);
    RC.FastForwardSurvivesIff(CopiesAt(d).c0, v);
    CallAtomicIff(d, total, RO.FastForwardCall(v));
  }

  /** Killed between the `memset` of copy 0 and the end of its scope: the bounds are the old ones and every version is
      unreadable. */
  lemma ForwardKilled(d: Disk, total: nat, v: nat)
    requires Agreed(d, total) && d.m0.primaryRing().nextVersion <= v && Ringed(d)
    requires RC.ForwardResets(CopiesAt(d).c0, v) && RC.Accepts(CopiesAt(d), RO.FastForwardCall(v))
    ensures var r := Reopened(d, RO.FastForwardCall(v), 3 + |CopiesAt(d).c0.cells|);
            && HistoryMax(r.m0, 0) == HistoryMax(d.m0, 0) && RangeLowerBound(r.m0, 0) == RangeLowerBound(d.m0, 0)
            && forall u :: RootOffsetAt(r, 0, u) == INVALID_OFFSET
  {
    var call, c := RO.FastForwardCall(v), CopiesAt(d);
    var k := 3 + |c.c0.cells|;
    var r := Reopened(d, call, k);
    AgreedServed(d, total);
    CallOutcome(d, total, call, k);
    RC.BlankedAfter(c.c0, v);
    VariantHeader(d, r);
    forall u: nat ensures RootOffsetAt(r, 0, u) == INVALID_OFFSET {
      AnswerIsGet(r, u);
    }
  }

  // ---------------------------------------------------------------- copies apart

  /** An append leaves the headers apart exactly when it dies between its scopes; then copy 1 is a version behind. */
  lemma AppendSplitsIff(d: Disk, total: nat, o: Offset, k: nat)
    requires Agreed(d, total) && d.cells0 == d.cells1 && Ringed(d)
    ensures var r, n0 := Reopened(d, RO.AppendCall(o), k), |CallInner(d, 0, RO.AppendCall(o))| + 2;
            && (Norm(r.m0) == Norm(r.m1) <==> k != n0)
            && (k == n0 ==> AtRest(r) && Ringed(r) && CopiesAt(r).c0.nv == CopiesAt(r).c1.nv + 1)
  {
    var call, i := RO.AppendCall(o), d.m0.primary;
    var i0, i1 := CallInner(d, 0, call), CallInner(d, 1, call);
    AgreedServed(d, total);
    InnerPerforms(d, 0, call);
    InnerPerforms(d, 1, call);
    if k < |i0| + 2 {
      EarlyCrash(d, i0, i1, k);
    } else {
      LateCrash(d, i0, i1, k);
    }
    assert CopiesAt(d).c0 == CopiesAt(d).c1;
    var s := RO.Step(CopiesAt(d), call).c0;
    BoundedTwice(d.m0, i, s.lb, s.nv, 0, 0);
    NormBounded(d.m0, d.m1, i, s.lb, s.nv);
  }

  lemma NormBounded(x: Metadata, y: Metadata, i: Bit, lb: nat, nv: nat)
    requires Norm(x) == Norm(y)
    ensures Norm(Bounded(x, i, lb, nv)) == Norm(Bounded(y, i, lb, nv))
    ensures nv != x.ring(i).nextVersion ==> Norm(Bounded(x, i, lb, nv)) != Norm(y)
  {
    assert Norm(x).a == Norm(y).a && Norm(x).b == Norm(y).b && Norm(x).primary == Norm(y).primary;
    assert Norm(x).active == Norm(y).active && Norm(x).consensus == Norm(y).consensus;
    if nv != x.ring(i).nextVersion {
      assert Norm(Bounded(x, i, lb, nv)).ring(i).nextVersion == nv;
      assert Norm(y).ring(i).nextVersion == x.ring(i).nextVersion;
    }
  }

  /** The disk after complete calls; one that fails its assertions does nothing. */
  function Used(d: Disk, calls: seq<RO.Call>): Disk {
    if calls == [] then d
    else
      var e, call := Used(d, calls[..|calls| - 1]), calls[|calls| - 1];
      if Ringed(e) && RC.Accepts(CopiesAt(e), call) then Run(e, CallWrites(e, call)) else e
  }

  /** The same chunks in the same rings, in the same roles. */
  predicate SameLists(m: Metadata, m': Metadata) {
    && m'.primary == m.primary && m'.active == m.active
    && m'.a.slots == m.a.slots && m'.a.len == m.a.len && m'.b.slots == m.b.slots && m'.b.len == m.b.len
  }

  lemma BoundedLists(m: Metadata, i: Bit, lb: nat, nv: nat)
    ensures SameLists(m, Bounded(m, i, lb, nv))
  {
  }

  /** On every disk the copies go the way of the two rings, and nothing else of the headers changes. */
  lemma {:induction false} UsedSteps(d: Disk, calls: seq<RO.Call>)
    requires AtRest(d) && Ringed(d)
    ensures var i, e, s := d.m0.primary, Used(d, calls), RO.Steps(CopiesAt(d), calls);
            && AtRest(e) && Ringed(e) && e.entries == d.entries && CopiesAt(e) == s
            && e.m0 == Bounded(d.m0, i, s.c0.lb, s.c0.nv) && e.m1 == Bounded(d.m1, i, s.c1.lb, s.c1.nv)
            && OnlyIn(Chunks(d.m0, i), d.cells0, e.cells0)
  {
    var i := d.m0.primary;
    if calls == [] {
      BoundedTwice(d.m0, i, 0, 0, 0, 0);
      BoundedTwice(d.m1, i, 0, 0, 0, 0);
    } else {
      UsedSteps(d, calls[..|calls| - 1]);
      var e, call := Used(d, calls[..|calls| - 1]), calls[|calls| - 1];
      if RC.Accepts(CopiesAt(e), call) {
        UsedOneMore(d, e, call);
      }
    }
  }

  lemma UsedOneMore(d: Disk, e: Disk, call: RO.Call)
    requires AtRest(e) && Ringed(e) && e.entries == d.entries && RC.Accepts(CopiesAt(e), call)
    requires var i, s := d.m0.primary, CopiesAt(e);
             e.m0 == Bounded(d.m0, i, s.c0.lb, s.c0.nv) && e.m1 == Bounded(d.m1, i, s.c1.lb, s.c1.nv)
    requires OnlyIn(Chunks(d.m0, d.m0.primary), d.cells0, e.cells0)
    ensures var i, s, x := d.m0.primary, RO.Step(CopiesAt(e), call), Run(e, CallWrites(e, call));
            && AtRest(x) && Ringed(x) && x.entries == d.entries && CopiesAt(x) == s
            && x.m0 == Bounded(d.m0, i, s.c0.lb, s.c0.nv) && x.m1 == Bounded(d.m1, i, s.c1.lb, s.c1.nv)
            && OnlyIn(Chunks(d.m0, i), d.cells0, x.cells0)
  {
    var i, t, s := d.m0.primary, CopiesAt(e), RO.Step(CopiesAt(e), call);
    CallStep(e, call);
    BoundedTwice(d.m0, i, t.c0.lb, t.c0.nv, s.c0.lb, s.c0.nv);
    BoundedTwice(d.m1, i, t.c1.lb, t.c1.nv, s.c1.lb, s.c1.nv);
  }

  /** And stays so after any number of further appends. */
  lemma BehindForGood(d: Disk, total: nat, o: Offset, calls: seq<RO.Call>)
    requires Agreed(d, total) && d.cells0 == d.cells1 && Ringed(d)
    requires forall call :: call in calls ==> call.AppendCall?
    ensures var e := Used(Reopened(d, RO.AppendCall(o), |CallInner(d, 0, RO.AppendCall(o))| + 2), calls);
            Ringed(e) && CopiesAt(e).c0.nv == CopiesAt(e).c1.nv + 1
  {
    var n0 := |CallInner(d, 0, RO.AppendCall(o))| + 2;
    var r := Reopened(d, RO.AppendCall(o), n0);
    AppendSplitsIff(d, total, o, n0);
    UsedSteps(r, calls);
    RC.BehindForGood(CopiesAt(r), calls);
  }

  lemma FreshCopies(total: nat, e: Pos)
    requires PowerOfTwo(total) && total <= SLOTS
    ensures var d := FreshPool(total, e);
            AtRest(d) && Ringed(d) && 0 < Cap(total, e)
            && CopiesAt(d) == RO.Copies(RO.NewRing(Cap(total, e)), RO.NewRing(Cap(total, e)))
  {
    var d := FreshPool(total, e);
    FreshSound(total, e);
    AgreedServed(d, total);
    SoundServed(d, total);
    assert RingAt(d, 0).cells == RO.Blank(Cap(total, e));
  }

  /** On a new pool one version was appended and erased again, so queries report none.  The next operation dies with its
      first store, and queries report version 0. */
  lemma EmptyPoolReportsVersion(total: nat, e: Pos, o: Offset, op: OpKind)
    requires PowerOfTwo(total) && total <= SLOTS && o != INVALID_OFFSET
    ensures var x := Used(FreshPool(total, e), [RO.AppendCall(o), RO.UpdateCall(0, INVALID_OFFSET)]);
            && AtRest(x) && WellFormed(x.m0, total, e) && HistoryMax(x.m0, 0) == INVALID_BLOCK_NUM
            && HistoryMax(Recovered(RunTo(op, x, 1, [])).m0, 0) == 0
  {
    var d, cap := FreshPool(total, e), Cap(total, e);
    var calls := [RO.AppendCall(o), RO.UpdateCall(0, INVALID_OFFSET)];
    FreshCopies(total, e);
    UsedSteps(d, calls);
    var c := RO.Copies(RO.NewRing(cap), RO.NewRing(cap));
    assert calls[..1] == [calls[0]] && calls[..1][..0] == [];
    assert RO.Steps(c, calls[..1]) == RO.Step(RO.Steps(c, []), calls[0]);
    assert RO.Steps(c, calls) == RO.Step(RO.Step(c, calls[0]), calls[1]);
    RO.NewRingSplits(cap, o);
    var x := Used(d, calls);
    FreshSound(total, e);
    assert RingAt(x, 0) == RO.NewRing(cap) && RingAt(x, 1).nv == 1;
    FirstStore(op, x);
  }
}
