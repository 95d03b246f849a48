/**
 The metadata context as an object that stores into its two mapped copies.  `log` records the
 stores; each operation is shown to make exactly the stores of the program that specifies it,
 although it reads the headers and the ring entries while it is changing them.
 */
module MetadataContext {
  import opened Disk
  import opened Programs
  import opened Arithmetic
  import opened Phases
  import opened PhaseData
  import opened CrashSafety
  import opened CrashTheorems
  import opened Lifecycle
  import Setters

  /** The entry of version `v` changes its position when the capacity changes. */
  predicate Moving(oldCap: Pos, newCap: Pos, v: nat) {
    Wrap(v, oldCap) != Wrap(v, newCap)
  }

  /** No entry is written to a position another one is still to be read from. */
  ghost predicate Apart(span: seq<nat>, e: Pos, oldCap: Pos, newCap: Pos, lo: nat, n: nat) {
    forall v, w :: lo <= v < lo + n && lo <= w < lo + n && Moving(oldCap, newCap, v) && Moving(oldCap, newCap, w) ==>
                     Locate(span, e, Wrap(v, oldCap)) != Locate(span, e, Wrap(w, newCap))
  }

  /** Halving the ring: entries move from the upper half to the lower. */
  lemma ShrinkApart(span: seq<nat>, e: Pos, n: Pos, lo: nat, w: nat)
    requires Distinct(span) && |span| == 2 * n
    ensures Apart(span, e, 2 * Cap(n, e), Cap(n, e), lo, w)
  {
    var cap := Cap(n, e);
    CapAdd(n, n, e);
    forall v, u | lo <= v < lo + w && lo <= u < lo + w && Moving(2 * cap, cap, v) && Moving(2 * cap, cap, u)
      ensures Locate(span, e, Wrap(v, 2 * cap)) != Locate(span, e, Wrap(u, cap))
    {
      WrapDouble(v, cap);
      LocateDiffer(span, e, Wrap(v, 2 * cap), Wrap(u, cap));
    }
  }

  /** Doubling the ring: entries move from the lower half to the upper. */
  lemma GrowApart(span: seq<nat>, e: Pos, h: Pos, lo: nat, w: nat)
    requires Distinct(span) && |span| == 2 * h
    ensures Cap(2 * h, e) == 2 * Cap(h, e) && Apart(span, e, Cap(h, e), Cap(2 * h, e), lo, w)
  {
    var cap := Cap(h, e);
    CapAdd(h, h, e);
    forall v, u | lo <= v < lo + w && lo <= u < lo + w && Moving(cap, 2 * cap, v) && Moving(cap, 2 * cap, u)
      ensures Locate(span, e, Wrap(v, cap)) != Locate(span, e, Wrap(u, 2 * cap))
    {
      WrapDouble(u, cap);
      LocateDiffer(span, e, Wrap(v, cap), Wrap(u, 2 * cap));
    }
  }

  lemma RunMore(d: Disk, ws: seq<Write>, w: Write)
    ensures Run(d, ws + [w]) == Apply(Run(d, ws), w)
  {
    assert (ws + [w])[..|ws|] == ws;
  }

  /** Relocation reads only the entries that move. */
  lemma {:induction false} RelocateSame(c: Bit, cells: Cells, cells': Cells, span: seq<nat>, e: Pos, oldCap: Pos,
                                        newCap: Pos, lo: nat, n: nat)
    requires forall v :: lo <= v < lo + n && Moving(oldCap, newCap, v) ==>
                           At(cells', Locate(span, e, Wrap(v, oldCap))) == At(cells, Locate(span, e, Wrap(v, oldCap)))
    ensures Relocate(c, cells', span, e, oldCap, newCap, lo, n) == Relocate(c, cells, span, e, oldCap, newCap, lo, n)
  {
    if n != 0 {
      RelocateSame(c, cells, cells', span, e, oldCap, newCap, lo, n - 1);
      assert Moving(oldCap, newCap, lo + n - 1) ==> Wrap(lo + n - 1, oldCap) != Wrap(lo + n - 1, newCap);
    }
  }

  /** Position range `lo .. lo + n` does not include the cell. */
  ghost predicate Missed(span: seq<nat>, e: Pos, lo: nat, n: nat, at: (nat, nat)) {
    forall p :: lo <= p < lo + n ==> Locate(span, e, p) != at
  }

  ghost predicate SameButFilled(cells: Cells, cells': Cells, span: seq<nat>, e: Pos, lo: nat, n: nat) {
    forall at :: Missed(span, e, lo, n, at) ==> At(cells', at) == At(cells, at)
  }

  lemma FillMore(cells: Cells, cells': Cells, span: seq<nat>, e: Pos, lo: nat, n: nat)
    requires SameButFilled(cells, cells', span, e, lo, n)
    ensures SameButFilled(cells, cells'[Locate(span, e, lo + n) := INVALID_OFFSET], span, e, lo, n + 1)
  {
    forall at | Missed(span, e, lo, n + 1, at)
      ensures At(cells'[Locate(span, e, lo + n) := INVALID_OFFSET], at) == At(cells, at)
    {
      assert Missed(span, e, lo, n, at);
    }
  }

  /** Only copy `c` differs. */
  predicate OnlyCopy(d: Disk, d': Disk, c: Bit) {
    d'.entries == d.entries && d'.meta(1 - c) == d.meta(1 - c) && d'.cells(1 - c) == d.cells(1 - c)
      && d'.dirty(1 - c) == d.dirty(1 - c)
  }

  predicate SameFrom(s: SlotList, s': SlotList, k: nat) {
    forall j :: k <= j < SLOTS ==> s'[j] == s[j]
  }

  /** One hand-over: two slots change, nothing else in the header. */
  lemma HandOver(m: Metadata, from: Bit, i: nat, j: nat, id: nat)
    requires i < SLOTS && j < SLOTS
    ensures var m' := Put(Put(m, ChunkSlot(1 - from, j, id)), ChunkSlot(from, i, NULL_CHUNK));
            && m'.ring(1 - from).slots == m.ring(1 - from).slots[j := id]
            && m'.ring(from).slots == m.ring(from).slots[i := NULL_CHUNK]
            && SameRole(m', m)
  {
  }

  /** The role index and the history length are as they were. */
  predicate SameRole(x: Metadata, y: Metadata) {
    x.historyLength == y.historyLength && x.primary == y.primary
  }

  predicate SameSlots(x: Metadata, y: Metadata) {
    x.a.slots == y.a.slots && x.b.slots == y.b.slots
  }

  /** What the body asserts of a copy before it splits its primary ring: the list is whole or already halved, and a
      chunk is mapped once. */
  predicate Splittable(x: Metadata, mount: Metadata, n: nat) {
    && 0 < n && 2 * n <= SLOTS
    && (x.ring(mount.primary).len == n ||
        (x.ring(mount.primary).len == 2 * n && Distinct(ShrinkSpan(x, mount, mount.primary, n))
         && |ShrinkSpan(x, mount, mount.primary, n)| == 2 * n))
  }

  /** The same before it merges the rings. */
  predicate Mergeable(x: Metadata, mount: Metadata, n: nat) {
    var h := x.ring(mount.primary).len;
    && n <= SLOTS
    && (h == n || (0 < h && 2 * h == n && Distinct(GrowSpan(x, mount, mount.primary, n))
                   && |GrowSpan(x, mount, mount.primary, n)| == n))
  }

  /** A history length that needs capping can be capped at the minimum or above. */
  predicate CapReady(m: Metadata, e: Pos, n: nat) {
    Cap(n, e) < m.historyLength ==> MIN_HISTORY_LENGTH <= Cap(n, e)
  }

  predicate BodyReady(op: OpKind, x: Metadata, mount: Metadata, n: nat) {
    match op
    case NoOp => true
    case Activate => Splittable(x, mount, n)
    case Deactivate => Mergeable(x, mount, n)
    case Promote => true
  }

  /** Two headers that differ at most in lower bounds. */
  predicate SameButLowerBound(x: Metadata, y: Metadata) {
    && SameSlots(x, y) && x.a.len == y.a.len && x.b.len == y.b.len
    && x.a.nextVersion == y.a.nextVersion && x.b.nextVersion == y.b.nextVersion
    && SameRole(x, y)
  }

  function KeptCopies(c: Bit, x: Metadata, mount: Metadata, cells: Cells, e: Pos, n: Pos, newLb: nat): seq<Write> {
    var p := x.ring(mount.primary);
    if p.len != n
    then Relocate(c, cells, ShrinkSpan(x, mount, mount.primary, n), e, 2 * Cap(n, e), Cap(n, e), newLb,
                  Window(newLb, p.nextVersion))
    else []
  }

  /** After the lower bound is raised the rest of the front part is still the same. */
  lemma FrontSame(c: Bit, x: Metadata, x1: Metadata, mount: Metadata, cells: Cells, e: Pos, n: Pos)
    requires SameButLowerBound(x, x1)
    ensures var pi := mount.primary;
            && KeptCopies(c, x1, mount, cells, e, n, RaisedLowerBound(x.ring(pi), Cap(n, e)))
               == ActivateCopies(c, x, mount, pi, cells, e, n)
            && MoveSlots(c, x1, pi, n, 1 - pi, 0, n) == MoveSlots(c, x, pi, n, 1 - pi, 0, n)
            && ShrinkSpan(x1, mount, pi, n) == ShrinkSpan(x, mount, pi, n)
  {
    var pi := mount.primary;
    MovedSame(x, x1, 1 - pi, 0, pi, n, n);
    MoveSame(c, x, x1, pi, n, 1 - pi, 0, n);
  }

  lemma Assoc(a: seq<Write>, b: seq<Write>, c: seq<Write>)
    ensures a + b + c == a + (b + c)
  {
  }

  lemma AssocThree(a: seq<Write>, b: seq<Write>, c: seq<Write>, d: seq<Write>)
    ensures a + b + c + d == a + (b + c + d)
  {
  }

  lemma ScopeIs(log: seq<Write>, c: Bit, xs: seq<Write>, ys: seq<Write>, zs: seq<Write>)
    ensures log + [Dirty(c, true)] + xs + ys + zs + [Dirty(c, false)] == log + Scope(c, xs + ys + zs)
  {
  }

  function GrowStores(c: Bit, cells: Cells, span: seq<nat>, e: Pos, h: nat, n: nat, lb: nat, nv: nat): seq<Write> {
    if 0 < h < n then
      Fill(c, span, e, Cap(h, e), Cap(n - h, e)) + Relocate(c, cells, span, e, Cap(h, e), Cap(n, e), lb, Window(lb, nv))
    else []
  }

  /** The blanked half holds no entry that is still to be read. */
  lemma GrowSources(c: Bit, cells: Cells, cells': Cells, span: seq<nat>, e: Pos, h: Pos, lo: nat, w: nat)
    requires Distinct(span) && |span| == 2 * h && SameButFilled(cells, cells', span, e, Cap(h, e), Cap(h, e))
    ensures Relocate(c, cells', span, e, Cap(h, e), Cap(2 * h, e), lo, w)
            == Relocate(c, cells, span, e, Cap(h, e), Cap(2 * h, e), lo, w)
  {
    CapAdd(h, h, e);
    var cap := Cap(h, e);
    forall v | lo <= v < lo + w && Moving(cap, Cap(2 * h, e), v)
      ensures At(cells', Locate(span, e, Wrap(v, cap))) == At(cells, Locate(span, e, Wrap(v, cap)))
    {
      forall p | cap <= p < cap + cap ensures Locate(span, e, p) != Locate(span, e, Wrap(v, cap)) {
        LocateDiffer(span, e, p, Wrap(v, cap));
      }
      assert Missed(span, e, cap, cap, Locate(span, e, Wrap(v, cap)));
    }
    RelocateSame(c, cells, cells', span, e, cap, Cap(2 * h, e), lo, w);
  }

  /** A store changes one copy, and in it the header or the ring entries. */
  lemma ApplyFrame(d: Disk, w: Write)
    ensures OnlyCopy(d, Apply(d, w), w.c)
    ensures !w.Store? ==> Apply(d, w).meta(w.c) == d.meta(w.c)
    ensures !w.Cell? ==> Apply(d, w).cells(w.c) == d.cells(w.c)
    ensures w.Store? ==> Apply(d, w).meta(w.c) == Put(d.meta(w.c), w.f)
  {
  }

  lemma PutFrame(m: Metadata, f: Field)
    requires !f.HistoryLength? && !f.PrimaryIdx?
    ensures SameRole(Put(m, f), m)
  {
  }

  /** The stores of a body on one copy. */
  function CopyStores(op: OpKind, c: Bit, x: Metadata, mount: Metadata, cells: Cells, e: Pos, n: nat): seq<Write> {
    Scope(c, Inner(op, c, x, mount, mount.primary, cells, e, n))
  }

  function BothStores(op: OpKind, d: Disk, mount: Metadata, n: nat): seq<Write> {
    CopyStores(op, 0, d.m0, mount, d.cells0, d.entries, n) + CopyStores(op, 1, d.m1, mount, d.cells1, d.entries, n)
  }

  lemma BodyIsBoth(op: OpKind, d: Disk, n: nat)
    ensures Body(op, d, n) == BothStores(op, d, d.m0, n) + HistoryWrites(op, d, n)
    ensures op != Activate ==> Body(op, d, n) == BothStores(op, d, d.m0, n)
  {
  }

  /** The assertions of replay: stamped copies agree, and the body may run. */
  predicate Replayable(d: Disk) {
    && (d.m0.kind != NoOp && d.m1.kind != NoOp ==> d.m0.kind == d.m1.kind && d.m0.param == d.m1.param)
    && (d.m0.kind != NoOp || d.m1.kind != NoOp ==>
          var m := if d.m0.kind != NoOp then d.m0 else d.m1;
          && BodyReady(m.kind, d.m0, d.m0, m.param) && BodyReady(m.kind, d.m1, d.m0, m.param)
          && (m.kind == Activate ==> CapReady(d.m0, d.entries, m.param)))
  }

  predicate Recoverable(d: Disk) {
    !(d.dirty0 && d.dirty1) && Replayable(Run(d, Restore(d)))
  }

  /** Right after the stamp both copies are stamped and as before. */
  lemma StampedFamily(op: OpKind, o: Disk, total: nat)
    requires Quiescent(op, o, total)
    ensures var n := Target(op, o.m0);
            InFamily(op, o, o.m0.(kind := op, param := n)) && InFamily(op, o, o.m1.(kind := op, param := n))
  {
  }

  /** The chunk list of the kept half is the same before and after the operation. */
  lemma KeptHead(op: OpKind, o: Disk, total: nat, x: Metadata)
    requires Quiescent(op, o, total) && InFamily(op, o, x) && op != Promote
    ensures var h := if op == Activate then N(op, o) else o.m0.primaryRing().len;
            x.primary == o.m0.primary && h <= SLOTS && Take(x.ring(x.primary).slots, h) == o.m0.primaryRing().slots[..h]
  {
    PhaseFacts(op, o.m0, x, total, o.entries);
    Roles(op, o, x, total);
    var h := if op == Activate then N(op, o) else o.m0.primaryRing().len;
    assert x.ring(x.primary).slots[..h] == o.m0.primaryRing().slots[..h];
  }

  lemma SplitReady(o: Disk, total: nat, x: Metadata, mount: Metadata)
    requires Quiescent(Activate, o, total) && InFamily(Activate, o, x) && InFamily(Activate, o, mount)
    ensures Splittable(x, mount, N(Activate, o))
  {
    var n := N(Activate, o);
    PhaseFacts(Activate, o.m0, x, total, o.entries);
    KeptHead(Activate, o, total, mount);
    Roles(Activate, o, x, total);
    if InPre(o, x) {
      ShrinkSpanIs(x, o.entries, total);
      assert ShrinkSpan(x, mount, mount.primary, n) == ShrinkSpan(x, x, x.primary, n);
    }
  }

  lemma MergeReady(o: Disk, total: nat, x: Metadata, mount: Metadata)
    requires Quiescent(Deactivate, o, total) && InFamily(Deactivate, o, x) && InFamily(Deactivate, o, mount)
    ensures Mergeable(x, mount, N(Deactivate, o))
  {
    var n := N(Deactivate, o);
    PhaseFacts(Deactivate, o.m0, x, total, o.entries);
    KeptHead(Deactivate, o, total, mount);
    Roles(Deactivate, o, x, total);
    if InPre(o, x) {
      GrowSpanIs(x, o.entries, total);
      assert GrowSpan(x, mount, mount.primary, n) == GrowSpan(x, x, x.primary, n);
    }
  }

  lemma FamilyReady(op: OpKind, o: Disk, total: nat, x0: Metadata, x1: Metadata)
    requires Quiescent(op, o, total) && InFamily(op, o, x0) && InFamily(op, o, x1)
    ensures BodyReady(op, x0, x0, N(op, o)) && BodyReady(op, x1, x0, N(op, o))
  {
    match op
    case Activate => SplitReady(o, total, x0, x0); SplitReady(o, total, x1, x0);
    case Deactivate => MergeReady(o, total, x0, x0); MergeReady(o, total, x1, x0);
    case Promote =>
  }

  /** The length of either copy could be capped. */
  predicate CapFits(op: OpKind, o: Disk) {
    op == Activate ==> forall c: Bit :: CapReady(o.meta(c), o.entries, N(op, o))
  }

  /** The pool can be opened: none of the assertions of recovery fails. */
  lemma ShapeRecoverable(op: OpKind, o: Disk, total: nat, d: Disk)
    requires Quiescent(op, o, total) && Shape(op, o, d) && CapFits(op, o)
    ensures Recoverable(d)
  {
    RestoreDone(d);
    FamilyReady(op, o, total, View(d, 0), View(d, 1));
    assert CapReady(o.meta(0), o.entries, N(op, o)) || op != Activate;
    assert CapReady(o.meta(1), o.entries, N(op, o)) || op != Activate;
  }

  lemma Unopenable(o: Disk, d: Disk)
    requires Shape(Activate, o, d) && Stamped(Activate, o, View(d, 0))
    requires !CapReady(View(d, 0), o.entries, N(Activate, o))
    ensures !Recoverable(d)
  {
    RestoreDone(d);
  }

  /** A crash with the intent on both copies, or one store later, when copy 1 counts. */
  lemma StampedCrash(o: Disk, total: nat, c: Bit) returns (k: nat)
    requires Quiescent(Activate, o, total)
    ensures var d := RunTo(Activate, o, k, []);
            Shape(Activate, o, d) && Stamped(Activate, o, View(d, 0))
              && View(d, 0).historyLength == o.meta(c).historyLength
  {
    k := 8 + c;
    var st := Stamp(Activate, N(Activate, o));
    var d := Run(o, st);
    StampCrash(Activate, o, total, 8);
    OperationIs(Activate, o);
    CrashSplit(o, st, Program(Activate, o, d), k);
    ProgramCrash(Activate, o, total, d, 0);
    if c == 1 {
      ProgramEarly(Activate, o, total, d, 1);
    }
  }

  /** At every point of every run the pool can be opened exactly when a length that needs capping can be capped: below
      the minimum history the cap fails its own assertion, and so does every replay. */
  lemma OpensIff(op: OpKind, o: Disk, total: nat)
    requires Quiescent(op, o, total)
    ensures (forall k, ks :: Recoverable(RunTo(op, o, k, ks))) <==> CapFits(op, o)
  {
    if CapFits(op, o) {
      forall k, ks ensures Recoverable(RunTo(op, o, k, ks)) {
        RunShape(op, o, total, k, ks);
        ShapeRecoverable(op, o, total, RunTo(op, o, k, ks));
      }
    } else {
      var c: Bit :| !CapReady(o.meta(c), o.entries, N(op, o));
      var k := StampedCrash(o, total, c);
      Unopenable(o, RunTo(op, o, k, []));
    }
  }

  /** Activating a new pool: its length always needs capping. */
  lemma NewPoolOpensIff(total: nat, e: Pos)
    requires PowerOfTwo(total) && 2 <= total <= SLOTS
    ensures var o := FreshPool(total, e);
            && Quiescent(Activate, o, total)
            && ((forall k, ks :: Recoverable(RunTo(Activate, o, k, ks))) <==> MIN_HISTORY_LENGTH <= Cap(total / 2, e))
  {
    var o := FreshPool(total, e);
    FreshSound(total, e);
    PhaseFacts(Activate, o.m0, o.m0, total, e);
    CapAdd(total / 2, total / 2, e);
    OpensIff(Activate, o, total);
    assert o.meta(0) == o.m0;
  }

  class DbMetadataContext {
    var disk: Disk
    ghost var log: seq<Write>
    ghost const first: Disk

    /** The copies hold what the stores so far have made of them. */
    ghost predicate Valid()
      reads this
    {
      disk == Run(first, log)
    }

    /** Mapping the copies of an existing pool. */
    constructor (d: Disk)
      ensures Valid() && disk == d && log == []
    {
      disk, log, first := d, [], d;
    }

    /** One store. */
    method Put(w: Write)
      requires Valid()
      modifies this
      ensures Valid() && log == old(log) + [w] && disk == Apply(old(disk), w)
      ensures OnlyCopy(old(disk), disk, w.c)
      ensures !w.Store? ==> disk.meta(w.c) == old(disk).meta(w.c)
      ensures !w.Cell? ==> disk.cells(w.c) == old(disk).cells(w.c)
      ensures w.Store? && !w.f.HistoryLength? && !w.f.PrimaryIdx? ==> SameRole(disk.meta(w.c), old(disk).meta(w.c))
    {
      RunMore(first, log, w);
      ApplyFrame(disk, w);
      if w.Store? && !w.f.HistoryLength? && !w.f.PrimaryIdx? {
        PutFrame(disk.meta(w.c), w.f);
      }
      disk := Apply(disk, w);
      log := log + [w];
    }

    // -------------------------------------------------------------- loops over entries and chunk slots

    /** Fill `n` positions from `lo` with the invalid offset. */
    method FillSpan(c: Bit, span: seq<nat>, lo: nat, n: nat)
      requires Valid()
      modifies this
      ensures Valid() && log == old(log) + Fill(c, span, old(disk).entries, lo, n)
      ensures OnlyCopy(old(disk), disk, c) && disk.meta(c) == old(disk).meta(c)
      ensures SameButFilled(old(disk).cells(c), disk.cells(c), span, disk.entries, lo, n)
    {
      var e := disk.entries;
      ghost var cells := disk.cells(c);
      for i := 0 to n
        invariant Valid() && log == old(log) + Fill(c, span, e, lo, i)
        invariant OnlyCopy(old(disk), disk, c) && disk.meta(c) == old(disk).meta(c)
        invariant SameButFilled(cells, disk.cells(c), span, e, lo, i)
      {
        FillMore(cells, disk.cells(c), span, e, lo, i);
        Put(Cell(c, Locate(span, e, lo + i), INVALID_OFFSET));
      }
    }

    /** Copy each entry of `n` versions from its position under the old capacity to its position under the new one. */
    method CopyEntries(c: Bit, span: seq<nat>, oldCap: Pos, newCap: Pos, lo: nat, n: nat)
      requires Valid() && Apart(span, disk.entries, oldCap, newCap, lo, n)
      modifies this
      ensures Valid() && log == old(log) +
              Relocate(c, old(disk).cells(c), span, old(disk).entries, oldCap, newCap, lo, n)
      ensures OnlyCopy(old(disk), disk, c) && disk.meta(c) == old(disk).meta(c)
    {
      var e := disk.entries;
      ghost var cells := disk.cells(c);
      for i := 0 to n
        invariant Valid() && log == old(log) + Relocate(c, cells, span, e, oldCap, newCap, lo, i)
        invariant OnlyCopy(old(disk), disk, c) && disk.meta(c) == old(disk).meta(c)
        invariant forall v :: lo <= v < lo + n && Moving(oldCap, newCap, v) ==>
                                At(disk.cells(c), Locate(span, e, Wrap(v, oldCap)))
                                  == At(cells, Locate(span, e, Wrap(v, oldCap)))
      {
        var v := lo + i;
        if Wrap(v, oldCap) != Wrap(v, newCap) {
          assert Moving(oldCap, newCap, v);
          var x := At(disk.cells(c), Locate(span, e, Wrap(v, oldCap)));
          Put(Cell(c, Locate(span, e, Wrap(v, newCap)), x));
        }
      }
    }

    /** Hand one chunk id over. */
    method MoveId(c: Bit, from: Bit, i: nat, j: nat)
      requires Valid() && i < SLOTS && j < SLOTS
      modifies this
      ensures var m := old(disk).meta(c);
              var id := m.ring(from).slots[i];
              && log == old(log) + [Store(c, ChunkSlot(1 - from, j, id)), Store(c, ChunkSlot(from, i, NULL_CHUNK))]
              && disk.meta(c).ring(1 - from).slots == m.ring(1 - from).slots[j := id]
              && disk.meta(c).ring(from).slots == m.ring(from).slots[i := NULL_CHUNK]
              && SameRole(disk.meta(c), m)
      ensures Valid() && OnlyCopy(old(disk), disk, c) && disk.cells(c) == old(disk).cells(c)
    {
      var id := disk.meta(c).ring(from).slots[i];
      HandOver(disk.meta(c), from, i, j, id);
      Put(Store(c, ChunkSlot(1 - from, j, id)));
      Put(Store(c, ChunkSlot(from, i, NULL_CHUNK)));
    }

    /** Hand `n` chunk ids over to the other ring, skipping slots that already hold one. */
    method MoveIds(c: Bit, from: Bit, fromBase: nat, toBase: nat, n: nat)
      requires Valid() && fromBase + n <= SLOTS && toBase + n <= SLOTS
      modifies this
      ensures Valid() && log == old(log) + MoveSlots(c, old(disk).meta(c), from, fromBase, 1 - from, toBase, n)
      ensures OnlyCopy(old(disk), disk, c) && disk.cells(c) == old(disk).cells(c)
      ensures SameRole(disk.meta(c), old(disk).meta(c))
    {
      ghost var x := disk.meta(c);
      for k := 0 to n
        invariant Valid() && log == old(log) + MoveSlots(c, x, from, fromBase, 1 - from, toBase, k)
        invariant OnlyCopy(old(disk), disk, c) && disk.cells(c) == old(disk).cells(c)
        invariant SameRole(disk.meta(c), x)
        invariant SameFrom(x.ring(1 - from).slots, disk.meta(c).ring(1 - from).slots, toBase + k)
        invariant SameFrom(x.ring(from).slots, disk.meta(c).ring(from).slots, fromBase + k)
      {
        if disk.meta(c).ring(1 - from).slots[toBase + k] == NULL_CHUNK {
          MoveId(c, from, fromBase + k, toBase + k);
        }
      }
    }
  
    // -------------------------------------------------------------- the bodies, one copy at a time

    /** Raise the primary's lower bound over the versions that no longer fit. */
    method RaiseLowerBound(c: Bit, pi: Bit, n: Pos) returns (newLb: nat)
      requires Valid()
      modifies this
      ensures Valid() && log == old(log) + ActivateBump(c, old(disk).meta(c), pi, old(disk).entries, n)
      ensures newLb == RaisedLowerBound(old(disk).meta(c).ring(pi), Cap(n, old(disk).entries))
      ensures OnlyCopy(old(disk), disk, c) && disk.cells(c) == old(disk).cells(c)
      ensures SameButLowerBound(old(disk).meta(c), disk.meta(c))
    {
      var p := disk.meta(c).ring(pi);
      newLb := RaisedLowerBound(p, Cap(n, disk.entries));
      if newLb > p.lowerBound {
        Put(Store(c, LowerBound(pi, newLb)));
      }
    }

    /** Copy the kept entries into the half that stays, unless this copy is already split. */
    method CopyKept(c: Bit, mount: Metadata, n: Pos, newLb: nat)
      requires Valid() && Splittable(disk.meta(c), mount, n)
      modifies this
      ensures Valid()
      ensures log == old(log) + KeptCopies(c, old(disk).meta(c), mount, old(disk).cells(c), old(disk).entries, n, newLb)
      ensures OnlyCopy(old(disk), disk, c) && disk.meta(c) == old(disk).meta(c)
    {
      var p := disk.meta(c).ring(mount.primary);
      if p.len != n {
        var span := ShrinkSpan(disk.meta(c), mount, mount.primary, n);
        ShrinkApart(span, disk.entries, n, newLb, Window(newLb, p.nextVersion));
        CopyEntries(c, span, 2 * Cap(n, disk.entries), Cap(n, disk.entries), newLb, Window(newLb, p.nextVersion));
      }
    }

    /** Activation up to the point where the secondary ring is blanked. */
    method SplitFront(c: Bit, mount: Metadata, n: Pos)
      requires Valid() && Splittable(disk.meta(c), mount, n)
      modifies this
      ensures Valid()
      ensures log == old(log) +
              ActivateFront(c, old(disk).meta(c), mount, mount.primary, old(disk).cells(c), old(disk).entries, n)
      ensures OnlyCopy(old(disk), disk, c) && SameRole(disk.meta(c), old(disk).meta(c))
    {
      ghost var x, pi, cells, e := disk.meta(c), mount.primary, disk.cells(c), disk.entries;
      var newLb := RaiseLowerBound(c, mount.primary, n);
      FrontSame(c, x, disk.meta(c), mount, cells, e, n);
      CopyKept(c, mount, n, newLb);
      assert log == old(log) + ActivateBump(c, x, pi, e, n) + ActivateCopies(c, x, mount, pi, cells, e, n);
      MoveIds(c, mount.primary, n, 0, n);
      AssocThree(old(log), ActivateBump(c, x, pi, e, n), ActivateCopies(c, x, mount, pi, cells, e, n),
                 MoveSlots(c, x, pi, n, 1 - pi, 0, n));
    }
  
    /** The last stores of activation. */
    method CommitSplit(c: Bit, pi: Bit, n: nat)
      requires Valid()
      modifies this
      ensures Valid() && log == old(log) + ActivateCommit(c, pi, n)
      ensures OnlyCopy(old(disk), disk, c) && SameRole(disk.meta(c), old(disk).meta(c))
              && disk.meta(c).ring(pi).len == n
    {
      Put(Store(c, LowerBound(1 - pi, 0)));
      Put(Store(c, NextVersion(1 - pi, 0)));
      CommitLengths(c, pi, n);
    }

    method CommitLengths(c: Bit, pi: Bit, n: nat)
      requires Valid()
      modifies this
      ensures Valid()
      ensures log == old(log) + [Store(c, ChunksLen(pi, n)), Store(c, ChunksLen(1 - pi, n)), Store(c, ActiveFlag(true))]
      ensures OnlyCopy(old(disk), disk, c) && SameRole(disk.meta(c), old(disk).meta(c))
      ensures disk.meta(c).ring(pi).len == n
    {
      Put(Store(c, ChunksLen(pi, n)));
      Put(Store(c, ChunksLen(1 - pi, n)));
      Put(Store(c, ActiveFlag(true)));
    }

    /** The body of activation on one copy, under its dirty flag. */
    method ActivateCopy(c: Bit, mount: Metadata, n: Pos)
      requires Valid() && Splittable(disk.meta(c), mount, n)
      modifies this
      ensures Valid() && log == old(log) +
              CopyStores(Activate, c, old(disk).meta(c), mount, old(disk).cells(c), old(disk).entries, n)
      ensures OnlyCopy(old(disk), disk, c) && SameRole(disk.meta(c), old(disk).meta(c))
              && disk.meta(c).ring(mount.primary).len == n
    {
      var pi := mount.primary;
      Put(Dirty(c, true));
      var secondarySpan := MovedIds(disk.meta(c), pi, n, 1 - pi, 0, n);
      SplitFront(c, mount, n);
      FillSpan(c, secondarySpan, 0, Cap(n, disk.entries));
      CommitSplit(c, pi, n);
      Put(Dirty(c, false));
      ScopeIs(old(log), c, ActivateFront(c, old(disk).meta(c), mount, pi, old(disk).cells(c), old(disk).entries, n),
              ActivateBlank(c, old(disk).meta(c), pi, old(disk).entries, n), ActivateCommit(c, pi, n));
    }

    /** Blank the returned half and copy the live entries into it, unless this copy is already merged. */
    method GrowData(c: Bit, span: seq<nat>, h: nat, n: nat, lb: nat, nv: nat)
      requires Valid() && (h == n || (0 < h && 2 * h == n && Distinct(span) && |span| == n))
      modifies this
      ensures Valid()
      ensures log == old(log) + GrowStores(c, old(disk).cells(c), span, old(disk).entries, h, n, lb, nv)
      ensures OnlyCopy(old(disk), disk, c) && disk.meta(c) == old(disk).meta(c)
    {
      var e := disk.entries;
      if 0 < h < n {
        ghost var cells := disk.cells(c);
        FillSpan(c, span, Cap(h, e), Cap(n - h, e));
        GrowSources(c, cells, disk.cells(c), span, e, h, lb, Window(lb, nv));
        GrowApart(span, e, h, lb, Window(lb, nv));
        CopyEntries(c, span, Cap(h, e), Cap(n, e), lb, Window(lb, nv));
      }
    }

    method CommitMerge(c: Bit, pi: Bit, n: nat)
      requires Valid()
      modifies this
      ensures Valid() && log == old(log) + DeactivateCommit(c, pi, n)
      ensures OnlyCopy(old(disk), disk, c) && SameRole(disk.meta(c), old(disk).meta(c))
    {
      Put(Store(c, ChunksLen(pi, n)));
      Put(Store(c, ChunksLen(1 - pi, 0)));
      Put(Store(c, ActiveFlag(false)));
    }

    /** Deactivation between raising and lowering the dirty flag. */
    method MergeInner(c: Bit, mount: Metadata, n: nat)
      requires Valid() && Mergeable(disk.meta(c), mount, n)
      modifies this
      ensures Valid()
      ensures log == old(log) +
              DeactivateInner(c, old(disk).meta(c), mount, mount.primary, old(disk).cells(c), old(disk).entries, n)
      ensures OnlyCopy(old(disk), disk, c) && SameRole(disk.meta(c), old(disk).meta(c))
    {
      ghost var x, cells, e := disk.meta(c), disk.cells(c), disk.entries;
      var pi := mount.primary;
      var p := disk.meta(c).ring(pi);
      var span := GrowSpan(disk.meta(c), mount, pi, n);
      MoveIds(c, 1 - pi, 0, p.len, Window(p.len, n));
      GrowData(c, span, p.len, n, p.lowerBound, p.nextVersion);
      assert log == old(log) + DeactivateMoves(c, x, pi, n) + DeactivateData(c, x, mount, pi, cells, e, n);
      CommitMerge(c, pi, n);
      AssocThree(old(log), DeactivateMoves(c, x, pi, n), DeactivateData(c, x, mount, pi, cells, e, n),
                 DeactivateCommit(c, pi, n));
    }

    /** The body of deactivation on one copy, under its dirty flag. */
    method DeactivateCopy(c: Bit, mount: Metadata, n: nat)
      requires Valid() && Mergeable(disk.meta(c), mount, n)
      modifies this
      ensures Valid() && log == old(log) +
              CopyStores(Deactivate, c, old(disk).meta(c), mount, old(disk).cells(c), old(disk).entries, n)
      ensures OnlyCopy(old(disk), disk, c) && SameRole(disk.meta(c), old(disk).meta(c))
    {
      ghost var inner := DeactivateInner(c, disk.meta(c), mount, mount.primary, disk.cells(c), disk.entries, n);
      Put(Dirty(c, true));
      MergeInner(c, mount, n);
      Put(Dirty(c, false));
      AssocThree(old(log), [Dirty(c, true)], inner, [Dirty(c, false)]);
    }

    /** The body of promotion on one copy. */
    method PromoteCopy(c: Bit, mount: Metadata, n: nat)
      requires Valid()
      modifies this
      ensures Valid() && log == old(log) +
              CopyStores(Promote, c, old(disk).meta(c), mount, old(disk).cells(c), old(disk).entries, n)
      ensures OnlyCopy(old(disk), disk, c)
    {
      Put(Dirty(c, true));
      Put(Store(c, PrimaryIdx(ToBit(n))));
      Put(Dirty(c, false));
      assert log == old(log) + Scope(c, [Store(c, PrimaryIdx(ToBit(n)))]);
    }
  
    // -------------------------------------------------------------- both copies

    /** Stamp or clear the intent of one copy. */
    method StampCopy(c: Bit, op: OpKind, n: nat)
      requires Valid()
      modifies this
      ensures Valid() && log == old(log) + PendingScope(c, op, n)
      ensures OnlyCopy(old(disk), disk, c) && disk.cells(c) == old(disk).cells(c)
      ensures disk.meta(c) == old(disk).meta(c).(kind := op, param := n)
    {
      Put(Dirty(c, true));
      Put(Store(c, PendingKind(op)));
      Put(Store(c, PendingParam(n)));
      Put(Dirty(c, false));
      assert log == old(log) + Scope(c, [Store(c, PendingKind(op)), Store(c, PendingParam(n))]);
    }

    method SetPending(op: OpKind, n: nat)
      requires Valid() && op != NoOp
      modifies this
      ensures Valid() && log == old(log) + Stamp(op, n)
      ensures disk.entries == old(disk).entries && disk.cells0 == old(disk).cells0 && disk.cells1 == old(disk).cells1
      ensures disk.m0 == old(disk).m0.(kind := op, param := n) && disk.m1 == old(disk).m1.(kind := op, param := n)
    {
      StampCopy(0, op, n);
      StampCopy(1, op, n);
    }

    method ClearPending()
      requires Valid()
      modifies this
      ensures Valid() && log == old(log) + Clear()
    {
      StampCopy(0, NoOp, 0);
      StampCopy(1, NoOp, 0);
    }

    method UpdateHistoryLength(n: nat)
      requires Valid() && 0 < n
      requires forall c: Bit :: n <= Cap(disk.meta(c).ring(disk.m0.primary).len, disk.entries)
      modifies this
      ensures Valid() && log == old(log) +
              (Scope(0, [Store(0, HistoryLength(n))]) + Scope(1, [Store(1, HistoryLength(n))]))
      ensures disk.m0 == old(disk).m0.(historyLength := n) && disk.m1 == old(disk).m1.(historyLength := n)
      ensures disk.cells0 == old(disk).cells0 && disk.cells1 == old(disk).cells1
    {
      Put(Dirty(0, true));
      Put(Store(0, HistoryLength(n)));
      Put(Dirty(0, false));
      assert log == old(log) + Scope(0, [Store(0, HistoryLength(n))]);
      Put(Dirty(1, true));
      Put(Store(1, HistoryLength(n)));
      Put(Dirty(1, false));
    }

    method SplitBoth(mount: Metadata, n: Pos)
      requires Valid() && Splittable(disk.m0, mount, n) && Splittable(disk.m1, mount, n)
      modifies this
      ensures Valid() && log == old(log) + BothStores(Activate, old(disk), mount, n)
      ensures disk.entries == old(disk).entries && SameRole(disk.m0, old(disk).m0)
      ensures disk.m0.ring(mount.primary).len == n == disk.m1.ring(mount.primary).len
    {
      ActivateCopy(0, mount, n);
      ghost var stores0 := CopyStores(Activate, 0, old(disk).m0, mount, old(disk).cells0, old(disk).entries, n);
      assert log == old(log) + stores0;
      ActivateCopy(1, mount, n);
      Assoc(old(log), stores0, CopyStores(Activate, 1, old(disk).m1, mount, old(disk).cells1, old(disk).entries, n));
    }

    /** Set the latest voted or the latest proposed version with its block. */
    method SetLatest(mk: Setters.Marker, version: nat, block: nat)
      requires Valid()
      modifies this
      ensures Valid() && log == old(log) + Setters.SetMarker(mk, (version, block))
      ensures Clean(old(disk)) ==>
                && Setters.Marked(mk, (version, block), old(disk).m0, disk.m0)
                && Setters.Marked(mk, (version, block), old(disk).m1, disk.m1)
                && disk.cells0 == old(disk).cells0 && disk.cells1 == old(disk).cells1
    {
      SetLatestOf(0, mk, version, block);
      SetLatestOf(1, mk, version, block);
      RunAppend(first, old(log), Setters.SetMarker(mk, (version, block)));
      if Clean(old(disk)) {
        Setters.SetterSets(mk, old(disk), (version, block));
      }
    }

    method SetLatestOf(c: Bit, mk: Setters.Marker, version: nat, block: nat)
      requires Valid()
      modifies this
      ensures Valid() && log == old(log) + Scope(c, Setters.SetInner(c, mk, (version, block)))
    {
      if mk.Voted? {
        PutPair(c, VotedVersion(version), VotedBlock(block));
      } else {
        PutPair(c, ProposedVersion(version), ProposedBlock(block));
      }
    }

    /** Two words under the dirty flag. */
    method PutPair(c: Bit, f: Field, g: Field)
      requires Valid()
      modifies this
      ensures Valid() && log == old(log) + Scope(c, [Store(c, f), Store(c, g)])
    {
      Put(Dirty(c, true));
      Put(Store(c, f));
      Put(Store(c, g));
      Put(Dirty(c, false));
      assert log == old(log) + Scope(c, [Store(c, f), Store(c, g)]);
    }

    method ActivateBody(n: Pos)
      requires Valid() && Splittable(disk.m0, disk.m0, n) && Splittable(disk.m1, disk.m0, n)
               && CapReady(disk.m0, disk.entries, n)
      modifies this
      ensures Valid() && log == old(log) + Body(Activate, old(disk), n)
    {
      BodyIsBoth(Activate, disk, n);
      ghost var both := BothStores(Activate, disk, disk.m0, n);
      SplitBoth(disk.m0, n);
      var cap := Cap(n, disk.entries);
      if disk.m0.historyLength > cap {
        UpdateHistoryLength(Max(cap, MIN_HISTORY_LENGTH));
        Assoc(old(log), both, HistoryWrites(Activate, old(disk), n));
      }
    }

    method MergeBoth(mount: Metadata, n: nat)
      requires Valid() && Mergeable(disk.m0, mount, n) && Mergeable(disk.m1, mount, n)
      modifies this
      ensures Valid() && log == old(log) + BothStores(Deactivate, old(disk), mount, n)
    {
      DeactivateCopy(0, mount, n);
      ghost var stores0 := CopyStores(Deactivate, 0, old(disk).m0, mount, old(disk).cells0, old(disk).entries, n);
      assert log == old(log) + stores0;
      DeactivateCopy(1, mount, n);
      Assoc(old(log), stores0, CopyStores(Deactivate, 1, old(disk).m1, mount, old(disk).cells1, old(disk).entries, n));
    }

    method DeactivateBody(n: nat)
      requires Valid() && Mergeable(disk.m0, disk.m0, n) && Mergeable(disk.m1, disk.m0, n)
      modifies this
      ensures Valid() && log == old(log) + Body(Deactivate, old(disk), n)
    {
      BodyIsBoth(Deactivate, disk, n);
      MergeBoth(disk.m0, n);
    }

    method PromoteBody(n: nat)
      requires Valid()
      modifies this
      ensures Valid() && log == old(log) + Body(Promote, old(disk), n)
    {
      var mount := disk.m0;
      PromoteCopy(0, mount, n);
      PromoteCopy(1, mount, n);
    }

    /** The stores of `Body`, by kind of operation. */
    method RunBody(op: OpKind, n: nat)
      requires Valid() && op != NoOp && BodyReady(op, disk.m0, disk.m0, n) && BodyReady(op, disk.m1, disk.m0, n)
      requires op == Activate ==> CapReady(disk.m0, disk.entries, n)
      modifies this
      ensures Valid() && log == old(log) + Body(op, old(disk), n)
    {
      match op
      case Activate => ActivateBody(n);
      case Deactivate => DeactivateBody(n);
      case Promote => PromoteBody(n);
    }
  
    // -------------------------------------------------------------- the public operations

    /** What the log grew by is what happened to the disk. */
    twostate lemma LogTells(ws: seq<Write>)
      requires old(Valid()) && Valid() && log == old(log) + ws
      ensures disk == Run(old(disk), ws)
    {
      RunAppend(first, old(log), ws);
    }

    /** Stamp the intent, run the body, clear the intent. */
    method Operate(op: OpKind, n: nat, ghost total: nat)
      requires Valid() && Quiescent(op, disk, total) && n == Target(op, disk.m0)
      requires op == Activate ==> CapReady(disk.m0, disk.entries, n)
      modifies this
      ensures Valid() && log == old(log) + Operation(op, old(disk)) && disk == Complete(op, old(disk))
    {
      ghost var o, log0 := disk, log;
      SetPending(op, n);
      LogTells(Stamp(op, n));
      StampedFamily(op, o, total);
      FamilyReady(op, o, total, disk.m0, disk.m1);
      ghost var stamped := disk;
      RunBody(op, n);
      ClearPending();
      AssocThree(log0, Stamp(op, n), Body(op, stamped, n), Clear());
      LogTells(Operation(op, o));
    }

    method ActivateSecondary(ghost total: nat)
      requires Valid() && Quiescent(Activate, disk, total) && CapReady(disk.m0, disk.entries, Target(Activate, disk.m0))
      modifies this
      ensures Valid() && log == old(log) + Operation(Activate, old(disk)) && disk == Complete(Activate, old(disk))
    {
      Operate(Activate, disk.m0.primaryRing().len / 2, total);
    }

    method DeactivateSecondary(ghost total: nat)
      requires Valid() && Quiescent(Deactivate, disk, total)
      modifies this
      ensures Valid() && log == old(log) + Operation(Deactivate, old(disk)) && disk == Complete(Deactivate, old(disk))
    {
      Operate(Deactivate, disk.m0.primaryRing().len + disk.m0.secondaryRing().len, total);
    }

    method PromoteSecondary(ghost total: nat)
      requires Valid() && Quiescent(Promote, disk, total)
      modifies this
      ensures Valid() && log == old(log) + Operation(Promote, old(disk)) && disk == Complete(Promote, old(disk))
    {
      Operate(Promote, 1 - disk.m0.primary, total);
    }

    // -------------------------------------------------------------- recovery on open

    /** Overwrite a dirty header with the other one, word by word, under the dirty flag. */
    method CopyHeader(c: Bit)
      requires Valid()
      modifies this
      ensures Valid() && log == old(log) + Scope(c, CopyInner(c, old(disk).meta(1 - c)))
    {
      var words := CopyInner(c, disk.meta(1 - c));
      Put(Dirty(c, true));
      PutAll(words);
      Put(Dirty(c, false));
      AssocThree(old(log), [Dirty(c, true)], words, [Dirty(c, false)]);
    }

    method PutAll(words: seq<Write>)
      requires Valid()
      modifies this
      ensures Valid() && log == old(log) + words
    {
      for i := 0 to |words|
        invariant Valid() && log == old(log) + words[..i]
      {
        Put(words[i]);
      }
    }

    method RestoreDirty()
      requires Valid() && !(disk.dirty0 && disk.dirty1)
      modifies this
      ensures Valid() && log == old(log) + Restore(old(disk)) && disk == Run(old(disk), Restore(old(disk)))
    {
      ghost var o := disk;
      if disk.dirty0 {
        CopyHeader(0);
      } else if disk.dirty1 {
        CopyHeader(1);
      }
      LogTells(Restore(o));
    }

    method ReplayPending()
      requires Valid() && Replayable(disk)
      modifies this
      ensures Valid() && log == old(log) + Replay(old(disk)) && disk == Run(old(disk), Replay(old(disk)))
    {
      ghost var o, log0 := disk, log;
      if disk.m0.kind != NoOp || disk.m1.kind != NoOp {
        var m := if disk.m0.kind != NoOp then disk.m0 else disk.m1;
        var op, n := m.kind, m.param;
        RunBody(op, n);
        ClearPending();
        Assoc(log0, Body(op, o, n), Clear());
      }
      LogTells(Replay(o));
    }

    /** Opening the pool: dirty restore, then replay. */
    method Recover()
      requires Valid() && Recoverable(disk)
      modifies this
      ensures Valid() && log == old(log) + Recovery(old(disk)) && disk == Recovered(old(disk))
    {
      ghost var o, log0 := disk, log;
      RestoreDirty();
      ghost var r := disk;
      ReplayPending();
      Assoc(log0, Restore(o), Replay(r));
      LogTells(Recovery(o));
    }
  }
}
