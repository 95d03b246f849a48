/**
 Activation and any number of crashes.  A crash exactly between the two intent stamps lets a
 later crash roll the intent back after ring entries were moved and blanked, and lets one
 during the cap of the history length skip that cap.  The result below says exactly when no
 run can tell.
 */
module TornActivate {
  import opened Disk
  import opened Programs
  import opened Arithmetic
  import opened RingData
  import opened Phases
  import opened PhaseData
  import opened CrashSafety
  import opened Outcomes
  import opened CrashTheorems
  import opened Lifecycle
  import opened HistoryLengths
  import opened ActivateCrash
  import opened TornStamp

  /** A version that clients can read before the call. */
  predicate Readable(o: Disk, u: nat) {
    var p := o.m0.primaryRing();
    p.lowerBound <= u < p.nextVersion && RingRead(o.cells0, p, o.entries, u) != INVALID_OFFSET
  }

  /** A position of the old ring that activation writes: one in the half it gives away, or one
      that a kept version is moved to. */
  ghost predicate Overwritten(o: Disk, w: nat) {
    var p, cap := o.m0.primaryRing(), RoomAfter(Activate, o);
    && cap > 0
    && (cap <= w || exists v :: KeptFrom(Activate, o.m0, o.entries) <= v < p.nextVersion && Wrap(v, 2 * cap) == cap + w)
  }

  /** No readable version, kept or not, is stored where activation writes. */
  ghost predicate Harmless(o: Disk) {
    var cap := RoomAfter(Activate, o);
    cap > 0 ==> forall u :: Readable(o, u) ==> !Overwritten(o, Wrap(u, 2 * cap))
  }

  /** Every version reads as before the call. */
  ghost predicate StillReads(o: Disk, cells: Cells) {
    AgreeWindow(cells, o.cells0, o.m0.primaryRing(), o.entries)
  }

  // ---------------------------------------------------------------- the condition suffices

  /** The write is a blank, and not where a readable version is stored. */
  ghost predicate BlankWrite(o: Disk, w: Write) {
    var p := o.m0.primaryRing();
    w.Cell? ==> && w.off == INVALID_OFFSET
                && forall u :: Readable(o, u) ==> w.at != Locate(p.slots, o.entries, Wrap(u, Cap(p.len, o.entries)))
  }

  lemma BlankWrites(o: Disk, cells: Cells, ws: seq<Write>)
    requires o.m0.primaryRing().len > 0 && StillReads(o, cells) && forall w :: w in ws ==> BlankWrite(o, w)
    ensures StillReads(o, CellsEffect(cells, ws))
  {
    var p, e := o.m0.primaryRing(), o.entries;
    forall u | p.lowerBound <= u < p.nextVersion
      ensures RingRead(CellsEffect(cells, ws), p, e, u) == RingRead(o.cells0, p, e, u)
    {
      assert RingRead(cells, p, e, u) == RingRead(o.cells0, p, e, u);
      var cell := Locate(p.slots, e, Wrap(u, Cap(p.len, e)));
      if Readable(o, u) {
        forall i | 0 <= i < |ws| && ws[i].Cell? ensures ws[i].at != cell {
          assert BlankWrite(o, ws[i]);
        }
        Untouched(cells, ws, cell);
      } else {
        BlankStays(cells, ws, cell);
      }
    }
  }

  /** Where the old ring keeps a position, in terms of its first `2 * n` chunks. */
  lemma OldCell(p: Ring, e: Pos, n: Pos, u: nat)
    requires p.len == 2 * n <= SLOTS
    ensures var w := Wrap(u, 2 * Cap(n, e));
            && Cap(p.len, e) == 2 * Cap(n, e) == Cap(|p.slots[..2 * n]|, e) && w < 2 * Cap(n, e)
            && Locate(p.slots, e, w) == Locate(p.slots[..2 * n], e, w)
  {
    CapAdd(n, n, e);
    LocateHead(p.slots, e, 2 * n, Wrap(u, 2 * Cap(n, e)));
  }

  /** A moved entry: its version is kept and was stored in the leaving half. */
  lemma MovedBlank(o: Disk, cells: Cells, n: Pos, w: Write)
    requires Harmless(o) && StillReads(o, cells) && n == N(Activate, o)
    requires var p := o.m0.primaryRing(); p.len == 2 * n <= SLOTS && Distinct(p.slots[..2 * n])
    requires var p, e, lo := o.m0.primaryRing(), o.entries, KeptFrom(Activate, o.m0, o.entries);
             w in Relocate(0, cells, p.slots[..2 * n], e, 2 * Cap(n, e), Cap(n, e), lo, Window(lo, p.nextVersion))
    requires o.m0.primaryRing().lowerBound <= KeptFrom(Activate, o.m0, o.entries)
    ensures BlankWrite(o, w)
  {
    var p, e, lo := o.m0.primaryRing(), o.entries, KeptFrom(Activate, o.m0, o.entries);
    var span, cap := p.slots[..2 * n], Cap(n, e);
    var v := RelocateOrigin(0, cells, span, e, 2 * cap, cap, lo, Window(lo, p.nextVersion), w);
    CapAdd(n, n, e);
    WrapDouble(v, cap);
    OldCell(p, e, n, v);
    assert RingRead(cells, p, e, v) == RingRead(o.cells0, p, e, v);
    assert Overwritten(o, Wrap(v, 2 * cap));
    assert !Readable(o, v);
    forall u | Readable(o, u) ensures w.at != Locate(p.slots, e, Wrap(u, Cap(p.len, e))) {
      OldCell(p, e, n, u);
      assert !Overwritten(o, Wrap(u, 2 * cap));
      LocateDiffer(span, e, Wrap(u, 2 * cap), Wrap(v, cap));
    }
  }

  /** A blanked entry of the leaving half. */
  lemma FilledBlank(o: Disk, n: Pos, w: Write)
    requires Harmless(o) && n == N(Activate, o)
    requires var p := o.m0.primaryRing(); p.len == 2 * n <= SLOTS && Distinct(p.slots[..2 * n])
    requires w in Fill(0, o.m0.primaryRing().slots[n..2 * n], o.entries, 0, Cap(n, o.entries))
    ensures BlankWrite(o, w)
  {
    var p, e := o.m0.primaryRing(), o.entries;
    var ids, cap := p.slots[n..2 * n], Cap(n, e);
    FillShape(0, ids, e, 0, cap);
    FillWithin(0, ids, e, cap);
    CapAdd(n, n, e);
    forall u | Readable(o, u) ensures w.at != Locate(p.slots, e, Wrap(u, Cap(p.len, e))) {
      assert !Overwritten(o, Wrap(u, 2 * cap));
      OldCell(p, e, n, u);
      LocateHead(p.slots[..2 * n], e, n, Wrap(u, 2 * cap));
      HalfIds(p.slots, n, Locate(p.slots[..2 * n], e, Wrap(u, 2 * cap)).0);
    }
  }

  lemma FirstRunBlank(o: Disk, total: nat, d: Disk, w: Write)
    requires Quiescent(Activate, o, total) && Shape(Activate, o, d) && Clean(d) && InPre(o, d.m0)
    requires Harmless(o) && StillReads(o, d.cells0) && w in Inner0(Activate, o, d)
    ensures BlankWrite(o, w)
  {
    var x, e, n := d.m0, o.entries, N(Activate, o);
    PhaseFacts(Activate, o.m0, x, total, e);
    PhaseFacts(Activate, o.m0, o.m0, total, e);
    SameRings(Activate, o, x, total);
    ShrinkSpanIs(x, e, total);
    ActivateStages(x, d.cells0, e, total);
    MovesNoCells(0, x, x.primary, n, 1 - x.primary, 0, n);
    if w in ActivateCopies(0, x, x, x.primary, d.cells0, e, n) {
      MovedBlank(o, d.cells0, n, w);
    } else if w in ActivateBlank(0, x, x.primary, e, n) {
      FilledBlank(o, n, w);
    }
  }

  /** A rerun writes no entry but blanks in the half given away. */
  lemma RerunFills(y: Metadata, mount: Metadata, cells: Cells, e: Pos, total: nat, w: Write)
    requires Ready(Activate, y, total, e) && w.Cell?
    requires var n := Target(Activate, y);
             n > 0 && w in ActivateInner(0, PostMeta(Activate, y, e, n), mount, y.primary, cells, e, n)
    ensures var n := Target(Activate, y);
            n > 0 && 2 * n <= SLOTS && w in Fill(0, y.primaryRing().slots[n..2 * n], e, 0, Cap(n, e))
  {
    PhaseFacts(Activate, y, y, total, e);
    ActivateAgain(0, y, mount, cells, e, total);
  }

  lemma RerunBlank(o: Disk, total: nat, d: Disk, w: Write)
    requires Quiescent(Activate, o, total) && Shape(Activate, o, d) && Clean(d) && InPost(Activate, o, d.m0)
    requires Harmless(o) && w in Inner0(Activate, o, d)
    ensures BlankWrite(o, w)
  {
    if w.Cell? {
      var x, e := d.m0, o.entries;
      PhaseFacts(Activate, o.m0, x, total, e);
      var y := Dressed(o.m0, x);
      PhaseFacts(Activate, o.m0, y, total, e);
      RerunFills(y, x, d.cells0, e, total, w);
      OldSpan(o, total);
      FilledBlank(o, N(Activate, o), w);
    }
  }

  lemma OldSpan(o: Disk, total: nat)
    requires Quiescent(Activate, o, total)
    ensures var n, p := N(Activate, o), o.m0.primaryRing();
            n > 0 && p.len == 2 * n <= SLOTS && Distinct(p.slots[..2 * n])
  {
    PhaseFacts(Activate, o.m0, o.m0, total, o.entries);
    ShrinkSpanIs(o.m0, o.entries, total);
  }

  /** No prefix of the body, first run or rerun, changes what a version reads. */
  lemma PrefixReads(o: Disk, total: nat, d: Disk, k: nat)
    requires Quiescent(Activate, o, total) && Shape(Activate, o, d) && Clean(d)
    requires Harmless(o) && StillReads(o, d.cells0) && k <= |Inner0(Activate, o, d)|
    ensures StillReads(o, CellsEffect(d.cells0, Inner0(Activate, o, d)[..k]))
  {
    PhaseFacts(Activate, o.m0, o.m0, total, o.entries);
    var ws := Inner0(Activate, o, d)[..k];
    forall w | w in ws ensures BlankWrite(o, w) {
      if InPre(o, d.m0) {
        FirstRunBlank(o, total, d, w);
      } else {
        RerunBlank(o, total, d, w);
      }
    }
    BlankWrites(o, d.cells0, ws);
  }

  // ---------------------------------------------------------------- over every run

  /** Versions read as before, and a copy 0 that is through has everything it promises. */
  ghost predicate Safe(o: Disk, d: Disk) {
    && StillReads(o, d.cells0)
    && (InPost(Activate, o, View(d, 0)) ==> DataPost(Activate, o.m0, o.entries, o.cells0, d.cells0))
  }

  lemma KeptReads(o: Disk, total: nat, cells: Cells)
    requires Quiescent(Activate, o, total) && StillReads(o, cells)
    ensures DataPre(Activate, o.m0, o.entries, o.cells0, cells) && DataSame(o.m0, o.entries, o.cells0, cells)
  {
    PhaseFacts(Activate, o.m0, o.m0, total, o.entries);
  }

  lemma SafeEarly(o: Disk, total: nat, d: Disk, k: nat)
    requires Quiescent(Activate, o, total) && Shape(Activate, o, d) && Clean(d) && Intent(d) && Harmless(o)
             && Safe(o, d)
    requires 0 < k < |BodyScope(Activate, d, d.m0, 0, N(Activate, o))|
    ensures Safe(o, Crash(d, Program(Activate, o, d), k))
  {
    ProgramEarly(Activate, o, total, d, k);
    PrefixReads(o, total, d, k - 1);
    if InPost(Activate, o, d.m1) {
      BodyDataAgain(Activate, o, total, d, k - 1);
      SameRings(Activate, o, d.m0, total);
    }
  }

  lemma SafeLate(o: Disk, total: nat, d: Disk, k: nat)
    requires Quiescent(Activate, o, total) && Shape(Activate, o, d) && Clean(d) && Intent(d) && Harmless(o)
             && Safe(o, d)
    requires |BodyScope(Activate, d, d.m0, 0, N(Activate, o))| <= k
    ensures Safe(o, Crash(d, Program(Activate, o, d), k))
  {
    ProgramLate(Activate, o, total, d, k);
    KeptReads(o, total, d.cells0);
    BodyData(Activate, o, total, d);
    var inner := Inner0(Activate, o, d);
    PrefixReads(o, total, d, |inner|);
    Whole(inner);
  }

  lemma SafeProgram(o: Disk, total: nat, d: Disk, k: nat)
    requires Quiescent(Activate, o, total) && Shape(Activate, o, d) && Clean(d) && Intent(d) && Harmless(o)
             && Safe(o, d)
    ensures Safe(o, Crash(d, Program(Activate, o, d), k))
  {
    if k >= |BodyScope(Activate, d, d.m0, 0, N(Activate, o))| {
      SafeLate(o, total, d, k);
    } else if k != 0 {
      SafeEarly(o, total, d, k);
    } else {
      ProgramCrash(Activate, o, total, d, 0);
    }
  }

  lemma SafeRecovery(o: Disk, total: nat, d: Disk, k: nat)
    requires Quiescent(Activate, o, total) && Shape(Activate, o, d) && Harmless(o) && Safe(o, d)
    ensures Safe(o, Crash(d, Recovery(d), k))
  {
    var late, d1, j := RecoverySplit(Activate, o, d, k);
    if late {
      SafeProgram(o, total, d1, j);
    }
  }

  lemma SafeStamp(o: Disk, total: nat, k: nat, e: Disk)
    requires Quiescent(Activate, o, total) && e == Crash(o, Stamp(Activate, N(Activate, o)), k)
    ensures Safe(o, e)
  {
    StampCrash(Activate, o, total, k);
    OnePhase(Activate, o, View(e, 0), total);
  }

  lemma StampedSafe(o: Disk, total: nat, d: Disk)
    requires Quiescent(Activate, o, total) && d == Run(o, Stamp(Activate, N(Activate, o)))
    ensures Shape(Activate, o, d) && Clean(d) && Intent(d) && Safe(o, d)
  {
    StampCrash(Activate, o, total, 8);
    OnePhase(Activate, o, d.m0, total);
  }

  lemma SafeOperation(o: Disk, total: nat, k: nat)
    requires Quiescent(Activate, o, total) && Harmless(o)
    ensures Safe(o, Crash(o, Operation(Activate, o), k))
  {
    var late, d, j := OperationSplit(Activate, o, k);
    if late {
      StampedSafe(o, total, d);
      SafeProgram(o, total, d, j);
    } else {
      SafeStamp(o, total, k, Crash(o, Operation(Activate, o), k));
    }
  }

  lemma {:induction false} SafeRun(o: Disk, total: nat, k: nat, ks: seq<nat>)
    requires Quiescent(Activate, o, total) && Harmless(o)
    ensures Safe(o, RunTo(Activate, o, k, ks))
  {
    if ks == [] {
      SafeOperation(o, total, k);
    } else {
      var rest := ks[..|ks| - 1];
      SafeRun(o, total, k, rest);
      RunShape(Activate, o, total, k, rest);
      SafeRecovery(o, total, RunTo(Activate, o, k, rest), ks[|ks| - 1]);
    }
  }

  /** Nothing to cap, or the cap is the length itself. */
  predicate NoCap(o: Disk) {
    Capped(Activate, o, o.m0.historyLength) == o.m0.historyLength
  }

  lemma HarmlessAtomic(o: Disk, total: nat, k: nat, ks: seq<nat>)
    requires Quiescent(Activate, o, total) && Harmless(o) && SameLengths(o) && NoCap(o)
    ensures Atomic(Activate, o, RunTo(Activate, o, k, ks))
  {
    var d := RunTo(Activate, o, k, ks);
    SafeRun(o, total, k, ks);
    KeptReads(o, total, d.cells0);
    RunShape(Activate, o, total, k, ks);
    RecoveryExact(Activate, o, total, d);
    OnePhase(Activate, o, View(d, 0), total);
  }

  // ---------------------------------------------------------------- the condition is needed

  /** Rolled back right after the blanking: a readable version of the leaving half is gone. */
  lemma LosesUpper(o: Disk, total: nat, g: Disk, u: nat) returns (j: nat)
    requires Quiescent(Activate, o, total) && Torn(Activate, o, g) && Readable(o, u)
    requires var cap := RoomAfter(Activate, o); 0 < cap <= Wrap(u, 2 * cap)
    ensures !Atomic(Activate, o, AfterCrashes(g, [j]))
  {
    var i := BlankedUpper(o, total, g, u);
    TornReplay(Activate, o, total, g, i);
    NotAtomic(Activate, o, total, AfterCrashes(g, [i + 1]));
    j := i + 1;
  }

  lemma BlankedUpper(o: Disk, total: nat, g: Disk, u: nat) returns (i: nat)
    requires Quiescent(Activate, o, total) && Torn(Activate, o, g)
    requires var cap := RoomAfter(Activate, o); 0 < cap <= Wrap(u, 2 * cap)
    ensures i <= |Inner0(Activate, o, g)|
    ensures RingRead(CellsEffect(o.cells0, Inner0(Activate, o, g)[..i]), o.m0.primaryRing(), o.entries, u)
            == INVALID_OFFSET
  {
    var x, e, n := g.m0, o.entries, N(Activate, o);
    PhaseFacts(Activate, o.m0, x, total, e);
    SameRings(Activate, o, x, total);
    OldSpan(o, total);
    ActivateStages(x, o.cells0, e, total);
    var front := ActivateFront(0, x, x, x.primary, o.cells0, e, n);
    FillPrefix(0, o.m0.primaryRing().slots[n..2 * n], e, 0, Cap(n, e), 0);
    i := |front| + Cap(n, e);
    BlankPrefix(x, o.cells0, e, n, o.m0.primaryRing().slots[n..2 * n], i, Cap(n, e));
    CapAdd(n, n, e);
    BlankedRead(CellsEffect(o.cells0, front), o.m0.primaryRing(), e, n, Cap(n, e), u);
  }

  /** The kept version `v` is moved to where the old ring stores `u`. */
  predicate Displaces(o: Disk, u: nat, v: nat) {
    var cap := RoomAfter(Activate, o);
    && cap > 0 && Wrap(u, 2 * cap) < cap
    && KeptFrom(Activate, o.m0, o.entries) <= v < o.m0.primaryRing().nextVersion
    && Wrap(v, 2 * cap) == cap + Wrap(u, 2 * cap)
  }

  lemma ReplacedLower(o: Disk, total: nat, g: Disk, u: nat, v: nat, inner: seq<Write>)
    requires Quiescent(Activate, o, total) && Torn(Activate, o, g) && inner == Inner0(Activate, o, g)
    requires Displaces(o, u, v)
    ensures var p, e := o.m0.primaryRing(), o.entries;
            RingRead(CellsEffect(o.cells0, inner), p, e, u) == RingRead(o.cells0, p, e, v)
  {
    var x, e, n := g.m0, o.entries, N(Activate, o);
    PhaseFacts(Activate, o.m0, x, total, e);
    SameRings(Activate, o, x, total);
    OldSpan(o, total);
    ActivateCells(x, o.cells0, e, total);
    HalfCell(CellsEffect(o.cells0, inner), o.m0.primaryRing(), PostMeta(Activate, x, e, n).primaryRing(), e, n, u, v);
  }

  /** Rolled back right before the commit: the kept version `v` has taken the place of `u`. */
  lemma LosesLower(o: Disk, total: nat, g: Disk, u: nat, v: nat) returns (j: nat)
    requires Quiescent(Activate, o, total) && Torn(Activate, o, g) && Readable(o, u) && !Readable(o, v)
    requires Displaces(o, u, v)
    ensures !Atomic(Activate, o, AfterCrashes(g, [j]))
  {
    var i := MovedOver(o, total, g, u, v);
    TornReplay(Activate, o, total, g, i);
    NotAtomic(Activate, o, total, AfterCrashes(g, [i + 1]));
    j := i + 1;
  }

  lemma MovedOver(o: Disk, total: nat, g: Disk, u: nat, v: nat) returns (i: nat)
    requires Quiescent(Activate, o, total) && Torn(Activate, o, g) && !Readable(o, v) && Displaces(o, u, v)
    ensures i <= |Inner0(Activate, o, g)|
    ensures RingRead(CellsEffect(o.cells0, Inner0(Activate, o, g)[..i]), o.m0.primaryRing(), o.entries, u)
            == INVALID_OFFSET
  {
    var inner := Inner0(Activate, o, g);
    ReplacedLower(o, total, g, u, v, inner);
    PhaseFacts(Activate, o.m0, o.m0, total, o.entries);
    Whole(inner);
    i := |inner|;
  }

  lemma HalfCell(cells: Cells, p: Ring, q: Ring, e: Pos, n: Pos, u: nat, v: nat)
    requires p.len == 2 * n <= SLOTS && q.len == n && q.slots[..n] == p.slots[..n]
    requires Wrap(u, 2 * Cap(n, e)) < Cap(n, e) && Wrap(v, 2 * Cap(n, e)) == Cap(n, e) + Wrap(u, 2 * Cap(n, e))
    ensures RingRead(cells, q, e, v) == RingRead(cells, p, e, u)
  {
    CapAdd(n, n, e);
    WrapDouble(v, Cap(n, e));
    LocateHead(q.slots, e, n, Wrap(v, Cap(n, e)));
    LocateHead(p.slots, e, n, Wrap(u, 2 * Cap(n, e)));
  }

  /** The replay dies inside the cap's scope on copy 0: copy 1, which never carried the intent,
      is through, and nobody will cap the length again. */
  lemma CapScope(o: Disk, d: Disk, inner1: seq<Write>, hs: seq<Write>)
    requires Clean(d) && Inside(1, inner1) && Capping(Activate, o, hs, Ceiling(Activate, o)) && hs != []
    ensures var y := MetaEffect(d.m1, inner1);
            var e := Crash(d, Finish(inner1, hs), |Scope(1, inner1)| + 1);
            View(e, 0) == y && View(e, 1) == y
  {
    var s1, i0 := Scope(1, inner1), [Store(0, HistoryLength(Ceiling(Activate, o)))];
    CrashSplit(d, s1, hs + Clear(), |s1| + 1);
    ClosedView(d, 1, inner1, |s1|);
    var d1 := Run(d, s1);
    CrashSplit(d1, hs, Clear(), 1);
    CrashSplit(d1, Scope(0, i0), Scope(1, [Store(1, HistoryLength(Ceiling(Activate, o)))]), 1);
    HistoryMeta(0, d1.m0, Ceiling(Activate, o));
    InsideView(d1, 0, i0, 1);
  }

  lemma SkippedView(o: Disk, total: nat, g: Disk, j: nat)
    requires Quiescent(Activate, o, total) && SameLengths(o) && Torn(Activate, o, g)
             && Caps(Activate, o, g.m0.historyLength)
    requires j == |BodyScope(Activate, g, g.m0, 0, N(Activate, o))| + |Scope(1, Inner1(Activate, o, g))| + 1
    ensures var e := Crash(g, Program(Activate, o, g), j);
            && Shape(Activate, o, e) && InPost(Activate, o, View(e, 0)) && !Pending(e)
            && View(e, 0).historyLength == o.m1.historyLength
  {
    var s0, hs := BodyScope(Activate, g, g.m0, 0, N(Activate, o)), HistoryWrites(Activate, g, N(Activate, o));
    ProgramParts(Activate, o, g, j, s0, Remainder(Activate, o, g));
    ProgramLate(Activate, o, total, g, j);
    Body0Done(Activate, o, total, g);
    CappingIs(Activate, o, g);
    InnerInside(Activate, 1, g.m1, g.m0, g.m0.primary, g.cells1, g.entries, N(Activate, o));
    Roles(Activate, o, g.m0, total);
    BodyMeta(Activate, o, total, 1, g.m1, g.m0, g.cells1);
    CapScope(o, Run(g, s0), Inner1(Activate, o, g), hs);
  }

  lemma SkipsCap(o: Disk, total: nat, g: Disk) returns (j: nat)
    requires Quiescent(Activate, o, total) && SameLengths(o) && !NoCap(o) && Torn(Activate, o, g)
    ensures var d := AfterCrashes(g, [j]);
            && !Atomic(Activate, o, d) && InPost(Activate, o, Recovered(d).m0)
            && Recovered(d).m0.historyLength == o.m0.historyLength
  {
    OnePhase(Activate, o, g.m0, total);
    PhaseFacts(Activate, o.m0, o.m0, total, o.entries);
    j := |BodyScope(Activate, g, g.m0, 0, N(Activate, o))| + |Scope(1, Inner1(Activate, o, g))| + 1;
    SkippedView(o, total, g, j);
    OneOpen(g, j);
    CleanRecovery(Activate, o, g);
    var d := AfterCrashes(g, [j]);
    OnePhase(Activate, o, View(d, 0), total);
    RecoveryExact(Activate, o, total, d);
    PhasesDiffer(Activate, o, total, o, Recovered(d));
  }

  lemma NotAlwaysCapped(o: Disk, total: nat)
    requires Quiescent(Activate, o, total) && SameLengths(o) && !NoCap(o)
    ensures exists j :: !Atomic(Activate, o, RunTo(Activate, o, 4, [j]))
  {
    GapIs(Activate, o, total);
    var j := SkipsCap(o, total, Crash(o, Operation(Activate, o), 4));
    assert !Atomic(Activate, o, RunTo(Activate, o, 4, [j]));
  }

  lemma NotAlwaysHarmless(o: Disk, total: nat)
    requires Quiescent(Activate, o, total) && !Harmless(o)
    ensures exists j :: !Atomic(Activate, o, RunTo(Activate, o, 4, [j]))
  {
    GapIs(Activate, o, total);
    var g := Crash(o, Operation(Activate, o), 4);
    var cap, p := RoomAfter(Activate, o), o.m0.primaryRing();
    var u :| Readable(o, u) && Overwritten(o, Wrap(u, 2 * cap));
    var j;
    if cap <= Wrap(u, 2 * cap) {
      j := LosesUpper(o, total, g, u);
    } else {
      var v :| KeptFrom(Activate, o.m0, o.entries) <= v < p.nextVersion && Wrap(v, 2 * cap) == cap + Wrap(u, 2 * cap);
      if Readable(o, v) {
        j := LosesUpper(o, total, g, v);
      } else {
        j := LosesLower(o, total, g, u, v);
      }
    }
    assert !Atomic(Activate, o, RunTo(Activate, o, 4, [j]));
  }

  /** Activation is atomic for every query over all runs, with any first crash and any number
      of further ones, exactly when it writes over no readable version, has no history length
      to cap, and the copies agree on that length. */
  lemma ActivateAtomicIff(o: Disk, total: nat)
    requires Quiescent(Activate, o, total)
    ensures (forall k, ks :: Atomic(Activate, o, RunTo(Activate, o, k, ks))) <==>
            Harmless(o) && NoCap(o) && SameLengths(o)
  {
    if !SameLengths(o) {
      UnequalLengths(Activate, o, total);
      assert !Atomic(Activate, o, RunTo(Activate, o, 1, []));
    } else if !Harmless(o) {
      NotAlwaysHarmless(o, total);
    } else if !NoCap(o) {
      NotAlwaysCapped(o, total);
    } else {
      forall k, ks ensures Atomic(Activate, o, RunTo(Activate, o, k, ks)) {
        HarmlessAtomic(o, total, k, ks);
      }
    }
  }

  /** No new pool whose half ring holds the minimum history meets the condition: two crashes can
      leave its history length uncapped. */
  lemma NewPoolNotAtomic(total: nat, e: Pos)
    requires PowerOfTwo(total) && 2 <= total <= SLOTS && MIN_HISTORY_LENGTH <= Cap(total / 2, e)
    ensures var o := FreshPool(total, e);
            Quiescent(Activate, o, total) && exists j :: !Atomic(Activate, o, RunTo(Activate, o, 4, [j]))
  {
    var o := FreshPool(total, e);
    FreshSound(total, e);
    PhaseFacts(Activate, o.m0, o.m0, total, e);
    CapAdd(total / 2, total / 2, e);
    NotAlwaysCapped(o, total);
  }
}
