/**
 The one first crash that can hurt deactivation: exactly between the two intent stamps, when
 copy 1 does not carry the intent.  If the replay then dies inside copy 0's scope, the intent
 is rolled back although the secondary's chunks have been overwritten.  The primary timeline
 is never affected; the secondary one survives every run exactly under the condition below.
 */
module TornStamp {
  import opened Disk
  import opened Programs
  import opened Arithmetic
  import opened RingData
  import opened Phases
  import opened PhaseData
  import opened CrashSafety
  import opened Outcomes
  import opened CrashTheorems

  // ---------------------------------------------------------------- torn stamps and rollbacks

  /** Recovery answers every query as before the operation, or every query as after it. */
  ghost predicate Atomic(op: OpKind, o: Disk, d: Disk) {
    SameAnswers(Recovered(d), o) || SameAnswers(Recovered(d), Complete(op, o))
  }

  /** Copy 0 carries the intent and copy 1 does not; nothing else has happened. */
  predicate Torn(op: OpKind, o: Disk, d: Disk) {
    && Clean(d) && Shape(op, o, d) && d.cells0 == o.cells0 && d.entries == o.entries
    && InPre(o, d.m0) && Stamped(op, o, d.m0) && d.m1 == o.m1
  }

  /** A first crash after four stores falls exactly between the two stamps. */
  lemma GapIs(op: OpKind, o: Disk, total: nat)
    requires Quiescent(op, o, total)
    ensures Torn(op, o, Crash(o, Operation(op, o), 4))
  {
    var n := N(op, o);
    var st := Stamp(op, n);
    OperationIs(op, o);
    StampCrash(op, o, total, 4);
    CrashFirst(o, st, Program(op, o, Run(o, st)), 4);
    var s0 := PendingScope(0, op, n);
    CrashFirst(o, s0, PendingScope(1, op, n), 4);
    CrashWhole(o, s0, 4);
    PendingMeta(0, o.m0, op, n);
    ScopeClosed(o, 0, [Store(0, PendingKind(op)), Store(0, PendingParam(n))]);
  }

  lemma CleanRecovery(op: OpKind, o: Disk, g: Disk)
    requires Shape(op, o, g) && Clean(g) && Intent(g)
    ensures Recovery(g) == Program(op, o, g)
  {
    ReplayIs(op, o, g);
    assert Restore(g) == [] && Run(g, []) == g;
  }

  lemma OneOpen(d: Disk, j: nat)
    ensures AfterCrashes(d, [j]) == Crash(d, Recovery(d), j)
  {
    assert [j][..0] == [];
    assert AfterCrashes(d, []) == d;
  }

  /** The replay of a torn stamp, dying after `j` stores of the body on copy 0. */
  lemma TornReplay(op: OpKind, o: Disk, total: nat, g: Disk, j: nat)
    requires Quiescent(op, o, total) && Torn(op, o, g) && j <= |Inner0(op, o, g)|
    ensures var d := AfterCrashes(g, [j + 1]);
            && Shape(op, o, d) && RolledBack(op, o, d)
            && d.cells0 == CellsEffect(o.cells0, Inner0(op, o, g)[..j])
  {
    PhaseFacts(op, o.m0, o.m0, total, o.entries);
    OneOpen(g, j + 1);
    CleanRecovery(op, o, g);
    ProgramEarly(op, o, total, g, j + 1);
  }

  /** Activation and deactivation are told apart from their outcome by the secondary timeline. */
  lemma PhasesDiffer(op: OpKind, o: Disk, total: nat, r: Disk, c: Disk)
    requires Quiescent(op, o, total) && (op == Activate || op == Deactivate) && InPre(o, r.m0) && InPost(op, o, c.m0)
    ensures !SameAnswers(r, c) && !SameAnswers(c, r)
  {
    PhaseFacts(op, o.m0, r.m0, total, o.entries);
    PhaseFacts(op, o.m0, c.m0, total, o.entries);
    assert !(TimelineActive(r.m0, 1) <==> TimelineActive(c.m0, 1));
  }

  /** A rollback over entries that no longer read as before is not atomic. */
  lemma NotAtomic(op: OpKind, o: Disk, total: nat, d: Disk)
    requires Quiescent(op, o, total) && (op == Activate || op == Deactivate) && Shape(op, o, d) && RolledBack(op, o, d)
    requires !DataSame(o.m0, o.entries, o.cells0, d.cells0)
    ensures !Atomic(op, o, d)
  {
    RecoveryExact(op, o, total, d);
    OnePhase(op, o, View(d, 0), total);
    CompleteIs(op, o, total);
    PhasesDiffer(op, o, total, Recovered(d), Complete(op, o));
  }

  lemma UnequalLengths(op: OpKind, o: Disk, total: nat)
    requires Quiescent(op, o, total) && (op == Activate || op == Deactivate) && !SameLengths(o)
    ensures !Atomic(op, o, RunTo(op, o, 1, []))
  {
    var d := RunTo(op, o, 1, []);
    FirstScopeLength(op, o, total);
    RecoveryExact(op, o, total, d);
    CompleteIs(op, o, total);
    PhasesDiffer(op, o, total, Recovered(d), Complete(op, o));
  }

  // ---------------------------------------------------------------- deactivation

  /** Every live secondary entry is blank, and so is every live primary entry that the grown
      ring would place on top of one. */
  ghost predicate SecondaryBlank(o: Disk) {
    var p, s := o.m0.primaryRing(), o.m0.secondaryRing();
    var cap := Cap(p.len, o.entries);
    cap > 0 ==> forall v :: s.lowerBound <= v < s.nextVersion ==>
                              && RingRead(o.cells0, s, o.entries, v) == INVALID_OFFSET
                              && forall u :: p.lowerBound <= u < p.nextVersion && Wrap(u, 2 * cap) == cap + Wrap(v, cap)
                                   ==> RingRead(o.cells0, p, o.entries, u) == INVALID_OFFSET
  }

  /** The secondary timeline, as it was, reads only blanks. */
  ghost predicate StillBlank(o: Disk, cells: Cells) {
    var s := o.m0.secondaryRing();
    forall v :: s.lowerBound <= v < s.nextVersion ==> RingRead(cells, s, o.entries, v) == INVALID_OFFSET
  }

  // ---------------------------------------------------------------- the condition suffices

  lemma {:induction false} BlankStays(cells: Cells, ws: seq<Write>, cell: (nat, nat))
    requires At(cells, cell) == INVALID_OFFSET
    requires forall w :: w in ws && w.Cell? && w.at == cell ==> w.off == INVALID_OFFSET
    ensures At(CellsEffect(cells, ws), cell) == INVALID_OFFSET
  {
    if ws != [] {
      BlankStays(cells, ws[..|ws| - 1], cell);
    }
  }

  /** Each relocation write carries the entry of the version it serves. */
  lemma {:induction false} RelocateOrigin(c: Bit, cells: Cells, span: seq<nat>, e: Pos, oldCap: Pos, newCap: Pos,
                                          lo: nat, n: nat, w: Write)
    returns (u: nat)
    requires w in Relocate(c, cells, span, e, oldCap, newCap, lo, n)
    ensures lo <= u < lo + n && Wrap(u, oldCap) != Wrap(u, newCap)
    ensures w == Cell(c, Locate(span, e, Wrap(u, newCap)), At(cells, Locate(span, e, Wrap(u, oldCap))))
  {
    if w in Relocate(c, cells, span, e, oldCap, newCap, lo, n - 1) {
      u := RelocateOrigin(c, cells, span, e, oldCap, newCap, lo, n - 1, w);
    } else {
      u := lo + n - 1;
    }
  }

  /** A secondary entry is the entry at the same place of the returned half. */
  lemma TailCell(p: SlotList, s: SlotList, e: Pos, h: Pos, v: nat)
    requires 2 * h <= SLOTS
    ensures Locate(s, e, Wrap(v, Cap(h, e))) == Locate(p[..h] + s[..h], e, Cap(h, e) + Wrap(v, Cap(h, e)))
  {
    var span := p[..h] + s[..h];
    LocateTail(span, e, h, Cap(h, e) + Wrap(v, Cap(h, e)));
    assert span[h..] == s[..h];
    LocateHead(s, e, h, Wrap(v, Cap(h, e)));
  }

  /** A relocated entry that lands where the secondary reads version `v` comes from a version sharing its position. */
  lemma RelocatedBlank(cells: Cells, p: Ring, s: Ring, e: Pos, v: nat, w: Write, span: seq<nat>)
    requires 0 < p.len && 2 * p.len <= SLOTS && InWindow(p, e) && span == p.slots[..p.len] + s.slots[..p.len]
             && Distinct(span)
    requires w in Relocate(0, cells, span, e, Cap(p.len, e), 2 * Cap(p.len, e), p.lowerBound,
                           p.nextVersion - p.lowerBound)
    requires w.Cell? && w.at == Locate(s.slots, e, Wrap(v, Cap(p.len, e)))
    requires forall u :: && p.lowerBound <= u < p.nextVersion
                         && Wrap(u, 2 * Cap(p.len, e)) == Cap(p.len, e) + Wrap(v, Cap(p.len, e))
                         ==> RingRead(cells, p, e, u) == INVALID_OFFSET
    ensures w.off == INVALID_OFFSET
  {
    var h, cap := p.len, Cap(p.len, e);
    CapAdd(h, h, e);
    var u := RelocateOrigin(0, cells, span, e, cap, 2 * cap, p.lowerBound, p.nextVersion - p.lowerBound, w);
    TailCell(p.slots, s.slots, e, h, v);
    if Wrap(u, 2 * cap) != cap + Wrap(v, cap) {
      LocateDiffer(span, e, Wrap(u, 2 * cap), cap + Wrap(v, cap));
    }
    SameHead(cells, p.slots, s.slots, e, h, u);
  }

  lemma GrowBlank(cells: Cells, p: Ring, s: Ring, e: Pos, v: nat, w: Write)
    requires 0 < p.len && 2 * p.len <= SLOTS && InWindow(p, e) && Distinct(p.slots[..p.len] + s.slots[..p.len])
    requires w in GrowWrites(0, cells, p.slots[..p.len] + s.slots[..p.len], e, p.len, p.lowerBound,
                             p.nextVersion - p.lowerBound)
    requires w.Cell? && w.at == Locate(s.slots, e, Wrap(v, Cap(p.len, e)))
    requires forall u :: && p.lowerBound <= u < p.nextVersion
                         && Wrap(u, 2 * Cap(p.len, e)) == Cap(p.len, e) + Wrap(v, Cap(p.len, e))
                         ==> RingRead(cells, p, e, u) == INVALID_OFFSET
    ensures w.off == INVALID_OFFSET
  {
    var span := p.slots[..p.len] + s.slots[..p.len];
    if w in Fill(0, span, e, Cap(p.len, e), Cap(p.len, e)) {
      FillShape(0, span, e, Cap(p.len, e), Cap(p.len, e));
    } else {
      RelocatedBlank(cells, p, s, e, v, w, span);
    }
  }

  /** No prefix of the body puts anything but blanks where the secondary reads. */
  lemma PrefixBlank(o: Disk, total: nat, d: Disk, k: nat)
    requires Quiescent(Deactivate, o, total) && Shape(Deactivate, o, d) && Clean(d) && InPre(o, d.m0)
    requires SecondaryBlank(o) && StillBlank(o, d.cells0) && DataPre(Deactivate, o.m0, o.entries, o.cells0, d.cells0)
    requires k <= |Inner0(Deactivate, o, d)|
    ensures StillBlank(o, CellsEffect(d.cells0, Inner0(Deactivate, o, d)[..k]))
  {
    var e, x := o.entries, d.m0;
    PhaseFacts(Deactivate, o.m0, x, total, e);
    SameRings(Deactivate, o, x, total);
    var p, s := o.m0.primaryRing(), o.m0.secondaryRing();
    var inner := Inner0(Deactivate, o, d);
    GrowSpanIs(x, e, total);
    forall v | s.lowerBound <= v < s.nextVersion
      ensures RingRead(CellsEffect(d.cells0, inner[..k]), s, e, v) == INVALID_OFFSET
    {
      var cell := Locate(s.slots, e, Wrap(v, Cap(p.len, e)));
      assert RingRead(d.cells0, s, e, v) == INVALID_OFFSET;
      assert RingRead(o.cells0, s, e, v) == INVALID_OFFSET;
      forall w | w in inner[..k] && w.Cell? && w.at == cell ensures w.off == INVALID_OFFSET {
        InnerCells(x, d.cells0, e, total, w);
        GrowBlank(d.cells0, p, s, e, v, w);
      }
      BlankStays(d.cells0, inner[..k], cell);
    }
  }

  lemma InnerCells(x: Metadata, cells: Cells, e: Pos, total: nat, w: Write)
    requires Ready(Deactivate, x, total, e) && w.Cell?
    requires w in DeactivateInner(0, x, x, x.primary, cells, e, Target(Deactivate, x))
    ensures var p, s := x.primaryRing(), x.secondaryRing();
            w in GrowWrites(0, cells, p.slots[..p.len] + s.slots[..p.len], e, p.len, p.lowerBound,
                            p.nextVersion - p.lowerBound)
  {
    var n, pi := Target(Deactivate, x), x.primary;
    MovesNoCells(0, x, 1 - pi, 0, pi, x.ring(pi).len, Window(x.ring(pi).len, n));
    GrowDataIs(0, x, cells, e, total);
  }

  lemma BlankProgram(o: Disk, total: nat, d: Disk, k: nat)
    requires Quiescent(Deactivate, o, total) && Shape(Deactivate, o, d) && Clean(d) && Intent(d)
    requires SecondaryBlank(o) && StillBlank(o, d.cells0) && DataPre(Deactivate, o.m0, o.entries, o.cells0, d.cells0)
    ensures StillBlank(o, Crash(d, Program(Deactivate, o, d), k).cells0)
  {
    var inner := Inner0(Deactivate, o, d);
    if k == 0 {
      ProgramCrash(Deactivate, o, total, d, 0);
    } else {
      var j: nat;
      if k < |BodyScope(Deactivate, d, d.m0, 0, N(Deactivate, o))| {
        ProgramEarly(Deactivate, o, total, d, k);
        j := k - 1;
      } else {
        ProgramLate(Deactivate, o, total, d, k);
        j := |inner|;
        assert inner[..j] == inner;
      }
      if InPre(o, d.m0) {
        PrefixBlank(o, total, d, j);
      } else {
        BodyDataAgain(Deactivate, o, total, d, j);
      }
    }
  }

  lemma BlankRecovery(o: Disk, total: nat, d: Disk, k: nat)
    requires Quiescent(Deactivate, o, total) && Shape(Deactivate, o, d)
    requires SecondaryBlank(o) && StillBlank(o, d.cells0) && DataPre(Deactivate, o.m0, o.entries, o.cells0, d.cells0)
    ensures StillBlank(o, Crash(d, Recovery(d), k).cells0)
  {
    var late, d1, j := RecoverySplit(Deactivate, o, d, k);
    if late {
      BlankProgram(o, total, d1, j);
    }
  }

  lemma {:induction false} BlankRun(o: Disk, total: nat, ks: seq<nat>)
    requires Quiescent(Deactivate, o, total) && SecondaryBlank(o)
    ensures StillBlank(o, RunTo(Deactivate, o, 4, ks).cells0)
  {
    if ks == [] {
      GapIs(Deactivate, o, total);
      PhaseFacts(Deactivate, o.m0, o.m0, total, o.entries);
    } else {
      var rest := ks[..|ks| - 1];
      BlankRun(o, total, rest);
      RunShape(Deactivate, o, total, 4, rest);
      DurableRun(Deactivate, o, total, 4, rest);
      BlankRecovery(o, total, RunTo(Deactivate, o, 4, rest), ks[|ks| - 1]);
    }
  }

  // ---------------------------------------------------------------- the condition is needed

  lemma FilledTail(cells: Cells, p: Ring, s: Ring, e: Pos, v: nat)
    requires 0 < p.len && 2 * p.len <= SLOTS && s.len == p.len
    ensures RingRead(CellsEffect(cells, Fill(0, p.slots[..p.len] + s.slots[..p.len], e, Cap(p.len, e), Cap(p.len, e))),
                     s, e, v)
            == INVALID_OFFSET
  {
    TailCell(p.slots, s.slots, e, p.len, v);
    FilledAt(cells, p.slots[..p.len] + s.slots[..p.len], e, Cap(p.len, e), Cap(p.len, e), Wrap(v, Cap(p.len, e)));
  }

  lemma FillStage(x: Metadata, cells: Cells, e: Pos, total: nat) returns (i: nat)
    requires Ready(Deactivate, x, total, e)
    ensures var inner := DeactivateInner(0, x, x, x.primary, cells, e, Target(Deactivate, x));
            var p, s := x.primaryRing(), x.secondaryRing();
            i <= |inner| && CellsEffect(cells, inner[..i]) ==
                            CellsEffect(cells, Fill(0, p.slots[..p.len] + s.slots[..p.len], e, Cap(p.len, e),
                                                    Cap(p.len, e)))
  {
    var n, pi := Target(Deactivate, x), x.primary;
    var p, s := x.primaryRing(), x.secondaryRing();
    var moves, data := DeactivateMoves(0, x, pi, n), DeactivateData(0, x, x, pi, cells, e, n);
    var fill := Fill(0, p.slots[..p.len] + s.slots[..p.len], e, Cap(p.len, e), Cap(p.len, e));
    GrowDataIs(0, x, cells, e, total);
    MovesNoCells(0, x, 1 - pi, 0, pi, p.len, Window(p.len, n));
    i := |moves| + |fill|;
    assert (moves + data + DeactivateCommit(0, pi, n))[..i] == moves + fill + [];
    ThreeCells(cells, moves, fill, []);
  }

  lemma TornFill(o: Disk, total: nat, g: Disk, v: nat) returns (i: nat)
    requires Quiescent(Deactivate, o, total) && Torn(Deactivate, o, g)
    ensures i <= |Inner0(Deactivate, o, g)|
    ensures RingRead(CellsEffect(o.cells0, Inner0(Deactivate, o, g)[..i]), o.m0.secondaryRing(), o.entries, v)
            == INVALID_OFFSET
  {
    PhaseFacts(Deactivate, o.m0, g.m0, total, o.entries);
    i := FillStage(g.m0, o.cells0, o.entries, total);
    FilledTail(o.cells0, g.m0.primaryRing(), g.m0.secondaryRing(), o.entries, v);
  }

  /** A readable secondary version is lost by dying right after the blanking. */
  lemma LosesEntry(o: Disk, total: nat, g: Disk, v: nat) returns (j: nat)
    requires Quiescent(Deactivate, o, total) && Torn(Deactivate, o, g)
    requires var s := o.m0.secondaryRing();
             s.lowerBound <= v < s.nextVersion && RingRead(o.cells0, s, o.entries, v) != INVALID_OFFSET
    ensures !Atomic(Deactivate, o, AfterCrashes(g, [j]))
  {
    var i := TornFill(o, total, g, v);
    TornReplay(Deactivate, o, total, g, i);
    NotAtomic(Deactivate, o, total, AfterCrashes(g, [i + 1]));
    j := i + 1;
  }

  /** A readable primary version shows up in the secondary by dying right before the commit. */
  lemma ExposesEntry(o: Disk, total: nat, g: Disk, v: nat, u: nat) returns (j: nat)
    requires Quiescent(Deactivate, o, total) && Torn(Deactivate, o, g)
    requires var p, s := o.m0.primaryRing(), o.m0.secondaryRing();
             var cap := Cap(p.len, o.entries);
             && cap > 0 && s.lowerBound <= v < s.nextVersion && RingRead(o.cells0, s, o.entries, v) == INVALID_OFFSET
             && p.lowerBound <= u < p.nextVersion && Wrap(u, 2 * cap) == cap + Wrap(v, cap)
             && RingRead(o.cells0, p, o.entries, u) != INVALID_OFFSET
    ensures !Atomic(Deactivate, o, AfterCrashes(g, [j]))
  {
    var i := TornWhole(o, total, g, v, u);
    TornReplay(Deactivate, o, total, g, i);
    NotAtomic(Deactivate, o, total, AfterCrashes(g, [i + 1]));
    j := i + 1;
  }

  lemma TornWhole(o: Disk, total: nat, g: Disk, v: nat, u: nat) returns (i: nat)
    requires Quiescent(Deactivate, o, total) && Torn(Deactivate, o, g)
    requires var p, s := o.m0.primaryRing(), o.m0.secondaryRing();
             var cap := Cap(p.len, o.entries);
             && cap > 0 && RingRead(o.cells0, s, o.entries, v) == INVALID_OFFSET
             && p.lowerBound <= u < p.nextVersion && Wrap(u, 2 * cap) == cap + Wrap(v, cap)
             && RingRead(o.cells0, p, o.entries, u) != INVALID_OFFSET
    ensures i <= |Inner0(Deactivate, o, g)|
    ensures RingRead(CellsEffect(o.cells0, Inner0(Deactivate, o, g)[..i]), o.m0.secondaryRing(), o.entries, v)
            != RingRead(o.cells0, o.m0.secondaryRing(), o.entries, v)
  {
    var inner := Inner0(Deactivate, o, g);
    ExposedCells(o, total, g, v, u, inner);
    Whole(inner);
    i := |inner|;
  }

  /** The complete body makes the secondary read the primary's entry. */
  lemma ExposedCells(o: Disk, total: nat, g: Disk, v: nat, u: nat, inner: seq<Write>)
    requires Quiescent(Deactivate, o, total) && Torn(Deactivate, o, g) && inner == Inner0(Deactivate, o, g)
    requires var p := o.m0.primaryRing();
             var cap := Cap(p.len, o.entries);
             cap > 0 && p.lowerBound <= u < p.nextVersion && Wrap(u, 2 * cap) == cap + Wrap(v, cap)
    ensures RingRead(CellsEffect(o.cells0, inner), o.m0.secondaryRing(), o.entries, v) ==
            RingRead(o.cells0, o.m0.primaryRing(), o.entries, u)
  {
    var e, x := o.entries, g.m0;
    PhaseFacts(Deactivate, o.m0, x, total, e);
    SameRings(Deactivate, o, x, total);
    DeactivateCells(x, o.cells0, e, total);
    var q := PostMeta(Deactivate, x, e, N(Deactivate, o)).primaryRing();
    SharedCell(CellsEffect(o.cells0, inner), x.primaryRing(), x.secondaryRing(), q, e, v, u);
  }

  lemma SharedCell(cells: Cells, p: Ring, s: Ring, q: Ring, e: Pos, v: nat, u: nat)
    requires 0 < p.len && 2 * p.len <= SLOTS && s.len == p.len && q.len == 2 * p.len
    requires q.slots == Splice(p.slots, p.len, s.slots[..p.len])
    requires Wrap(u, 2 * Cap(p.len, e)) == Cap(p.len, e) + Wrap(v, Cap(p.len, e))
    ensures RingRead(cells, q, e, u) == RingRead(cells, s, e, v)
  {
    CapAdd(p.len, p.len, e);
    TailCell(p.slots, s.slots, e, p.len, v);
    assert q.slots[..q.len] == p.slots[..p.len] + s.slots[..p.len];
    LocateHead(q.slots, e, q.len, Wrap(u, 2 * Cap(p.len, e)));
  }

  /** Deactivation is atomic for both timelines over all runs, with any first crash and any
      number of further ones, exactly when the secondary timeline holds nothing to lose and the
      copies agree on the history length. */
  lemma DeactivateAtomicIff(o: Disk, total: nat)
    requires Quiescent(Deactivate, o, total)
    ensures (forall k, ks :: Atomic(Deactivate, o, RunTo(Deactivate, o, k, ks))) <==>
            SecondaryBlank(o) && SameLengths(o)
  {
    if !SameLengths(o) {
      UnequalLengths(Deactivate, o, total);
      assert !Atomic(Deactivate, o, RunTo(Deactivate, o, 1, []));
    } else if SecondaryBlank(o) {
      forall k, ks ensures Atomic(Deactivate, o, RunTo(Deactivate, o, k, ks)) {
        if k == 4 {
          GapAtomic(o, total, ks);
        } else {
          AnyNumberOfCrashes(Deactivate, o, total, k, ks);
        }
      }
    } else {
      NotAlwaysAtomic(o, total);
    }
  }

  lemma NotAlwaysAtomic(o: Disk, total: nat)
    requires Quiescent(Deactivate, o, total) && !SecondaryBlank(o)
    ensures exists j :: !Atomic(Deactivate, o, RunTo(Deactivate, o, 4, [j]))
  {
    GapIs(Deactivate, o, total);
    var g := Crash(o, Operation(Deactivate, o), 4);
    var p, s := o.m0.primaryRing(), o.m0.secondaryRing();
    var cap := Cap(p.len, o.entries);
    var v :| s.lowerBound <= v < s.nextVersion &&
             !(RingRead(o.cells0, s, o.entries, v) == INVALID_OFFSET
               && forall u :: p.lowerBound <= u < p.nextVersion && Wrap(u, 2 * cap) == cap + Wrap(v, cap)
                      ==> RingRead(o.cells0, p, o.entries, u) == INVALID_OFFSET);
    var j;
    if RingRead(o.cells0, s, o.entries, v) != INVALID_OFFSET {
      j := LosesEntry(o, total, g, v);
    } else {
      var u :| p.lowerBound <= u < p.nextVersion && Wrap(u, 2 * cap) == cap + Wrap(v, cap)
               && RingRead(o.cells0, p, o.entries, u) != INVALID_OFFSET;
      j := ExposesEntry(o, total, g, v, u);
    }
    assert !Atomic(Deactivate, o, RunTo(Deactivate, o, 4, [j]));
  }

  lemma GapAtomic(o: Disk, total: nat, ks: seq<nat>)
    requires Quiescent(Deactivate, o, total) && SecondaryBlank(o) && SameLengths(o)
    ensures Atomic(Deactivate, o, RunTo(Deactivate, o, 4, ks))
  {
    var d := RunTo(Deactivate, o, 4, ks);
    RunShape(Deactivate, o, total, 4, ks);
    DurableRun(Deactivate, o, total, 4, ks);
    BlankRun(o, total, ks);
    PhaseFacts(Deactivate, o.m0, o.m0, total, o.entries);
    RecoveryExact(Deactivate, o, total, d);
    DeactivatePromoteSafe(Deactivate, o, total, 4, ks);
    OnePhase(Deactivate, o, View(d, 0), total);
  }

  // ---------------------------------------------------------------- a disk on which it happens

  /** One chunk of one entry for each ring; the secondary timeline holds version 0. */
  lemma SplitPool() returns (o: Disk)
    ensures Quiescent(Deactivate, o, 2) && SameLengths(o) && !SecondaryBlank(o)
  {
    var a := Ring(0, 0, 1, [1] + Nulls(30), 0);
    var b := Ring(0, 1, 1, [2] + Nulls(30), 0);
    var m := Metadata(a, b, 0, true, NoOp, 0, 2, Consensus(0, 0, 0, 0, 0, 0));
    o := Disk(1, false, false, m, m, map[(2, 0) := 7], map[(2, 0) := 7]);
    assert PowerOfTwo(1) && PowerOfTwo(2 / 2);
    var ids := m.a.slots[..1] + m.b.slots[..1];
    assert ids == [1, 2] && Permutation(ids, 2);
    assert Cap(0, 1) == 0 && Cap(1, 1) == 1 && Wrap(0, 1) == 0;
    assert Locate(m.b.slots, 1, 0) == (2, 0);
    assert RingRead(o.cells0, m.b, 1, 0) == 7;
  }

  /** Two crashes, the first exactly between the two stamps, leave neither the state before nor the state after. */
  lemma DeactivateLosesSecondary() returns (o: Disk, j: nat)
    ensures Quiescent(Deactivate, o, 2) && SameLengths(o) && !Atomic(Deactivate, o, RunTo(Deactivate, o, 4, [j]))
  {
    o := SplitPool();
    NotAlwaysAtomic(o, 2);
    j :| !Atomic(Deactivate, o, RunTo(Deactivate, o, 4, [j]));
  }
}
