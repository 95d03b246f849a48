/**
 Activation and one crash.  The body blanks the chunks it hands over while copy 0 can still
 be rolled back to the header that reads them, so a crash in that stretch can lose versions.
 The results say for every crash point, and for the operation as a whole, exactly when.
 */
module ActivateCrash {
  import opened Disk
  import opened Programs
  import opened Arithmetic
  import opened RingData
  import opened Phases
  import opened PhaseData
  import opened CrashSafety
  import opened Outcomes
  import opened HistoryLengths

  /** The header the body finds on copy 0. */
  function StampedMeta(o: Disk): Metadata {
    o.m0.(kind := Activate, param := N(Activate, o))
  }

  /** Stores the body makes on copy 0 before it starts blanking. */
  function FrontLen(o: Disk): nat {
    var n := N(Activate, o);
    if n == 0 then 0
    else |ActivateFront(0, StampedMeta(o), StampedMeta(o), o.m0.primary, o.cells0, o.entries, n)|
  }

  /** Entries blanked by the first `j` stores of the body on copy 0. */
  function BlankedBy(o: Disk, j: nat): nat {
    var cap := Cap(N(Activate, o), o.entries);
    if j <= FrontLen(o) then 0 else if j - FrontLen(o) < cap then j - FrontLen(o) else cap
  }

  /** Entries blanked by a crash after `k` stores while copy 0 is still in its dirty scope:
      eight stamp stores and the raised flag come first, the commit and the lowered flag last. */
  function Blanked(o: Disk, k: nat): nat {
    if 8 < k < 15 + FrontLen(o) + Cap(N(Activate, o), o.entries) then BlankedBy(o, k - 9) else 0
  }

  /** No version that activation must keep sits in the first `b` entries of the leaving half. */
  ghost predicate NoLoss(o: Disk, b: nat) {
    var p, cap := o.m0.primaryRing(), Cap(N(Activate, o), o.entries);
    cap > 0 ==>
      forall v :: KeptFrom(Activate, o.m0, o.entries) <= v < p.nextVersion && cap <= Wrap(v, 2 * cap) < cap + b ==>
                    RingRead(o.cells0, p, o.entries, v) == INVALID_OFFSET
  }

  /** The disk with the intent on both copies. */
  predicate StampedDisk(o: Disk, d: Disk) {
    && Clean(d) && Shape(Activate, o, d) && d.m0 == StampedMeta(o) && d.cells0 == o.cells0
    && InPre(o, d.m1) && Stamped(Activate, o, d.m1)
  }

  // ---------------------------------------------------------------- inside the scope of copy 0

  /** The cell at a position of the whole ring after `b` entries of its upper half were blanked. */
  lemma BlankedCell(cells: Cells, slots: SlotList, e: Pos, n: Pos, b: nat, w: nat)
    requires 2 * n <= SLOTS && Distinct(slots[..2 * n]) && b <= Cap(n, e) && w < Cap(2 * n, e)
    ensures At(CellsEffect(cells, Fill(0, slots[n..2 * n], e, 0, b)), Locate(slots, e, w)) ==
            if Cap(n, e) <= w < Cap(n, e) + b then INVALID_OFFSET else At(cells, Locate(slots, e, w))
  {
    LocateHead(slots, e, 2 * n, w);
    if w < Cap(n, e) {
      BlankedBelow(cells, slots, e, n, b, w);
    } else {
      BlankedAbove(cells, slots, e, n, b, w);
    }
  }

  lemma BlankedBelow(cells: Cells, slots: SlotList, e: Pos, n: Pos, b: nat, w: nat)
    requires 2 * n <= SLOTS && Distinct(slots[..2 * n]) && b <= Cap(n, e) && w < Cap(n, e)
    ensures At(CellsEffect(cells, Fill(0, slots[n..2 * n], e, 0, b)), Locate(slots[..2 * n], e, w))
            == At(cells, Locate(slots[..2 * n], e, w))
  {
    var ids := slots[n..2 * n];
    FillWithin(0, ids, e, b);
    LocateHead(slots[..2 * n], e, n, w);
    HalfIds(slots, n, Locate(slots[..2 * n], e, w).0);
    UntouchedChunks(cells, Fill(0, ids, e, 0, b), (set i | i in ids), Locate(slots[..2 * n], e, w));
  }

  lemma BlankedAbove(cells: Cells, slots: SlotList, e: Pos, n: Pos, b: nat, w: nat)
    requires 2 * n <= SLOTS && Distinct(slots[..2 * n]) && b <= Cap(n, e) && Cap(n, e) <= w < Cap(2 * n, e)
    ensures At(CellsEffect(cells, Fill(0, slots[n..2 * n], e, 0, b)), Locate(slots[..2 * n], e, w)) ==
            if w < Cap(n, e) + b then INVALID_OFFSET else At(cells, Locate(slots[..2 * n], e, w))
  {
    CapAdd(n, n, e);
    var ids, cap := slots[n..2 * n], Cap(n, e);
    var ws := Fill(0, ids, e, 0, b);
    FillShape(0, ids, e, 0, b);
    LocateTail(slots[..2 * n], e, n, w);
    assert slots[..2 * n][n..] == ids;
    if w < cap + b {
      FilledAt(cells, ids, e, 0, b, w - cap);
    } else {
      TailDistinct(slots, n);
      forall i | 0 <= i < |ws| && ws[i].Cell? ensures ws[i].at != Locate(ids, e, w - cap) {
        LocateDiffer(ids, e, i, w - cap);
      }
      Untouched(cells, ws, Locate(ids, e, w - cap));
    }
  }

  /** Reading a version at its old position after `b` entries were blanked. */
  lemma BlankedRead(cells: Cells, p: Ring, e: Pos, n: Pos, b: nat, v: nat)
    requires p.len == 2 * n <= SLOTS && Distinct(p.slots[..2 * n]) && b <= Cap(n, e)
    ensures RingRead(CellsEffect(cells, Fill(0, p.slots[n..2 * n], e, 0, b)), p, e, v) ==
            if Cap(n, e) <= Wrap(v, 2 * Cap(n, e)) < Cap(n, e) + b then INVALID_OFFSET else RingRead(cells, p, e, v)
  {
    CapAdd(n, n, e);
    BlankedCell(cells, p.slots, e, n, b, Wrap(v, 2 * Cap(n, e)));
  }

  lemma TailDistinct(p: SlotList, n: nat)
    requires 2 * n <= SLOTS && Distinct(p[..2 * n])
    ensures Distinct(p[n..2 * n])
  {
    forall i, j | 0 <= i < j < n ensures p[n..2 * n][i] != p[n..2 * n][j] {
      assert p[..2 * n][n + i] == p[n..2 * n][i] && p[..2 * n][n + j] == p[n..2 * n][j];
    }
  }

  lemma HalfIds(p: SlotList, n: nat, id: nat)
    requires 2 * n <= SLOTS && Distinct(p[..2 * n]) && id in p[..2 * n][..n]
    ensures id !in p[n..2 * n]
  {
    var i :| 0 <= i < n && p[..2 * n][..n][i] == id;
    forall j | 0 <= j < n ensures p[n..2 * n][j] != id {
      assert p[..2 * n][i] == id && p[..2 * n][n + j] == p[n..2 * n][j];
    }
  }

  /** A prefix of header, entry and header writes changes entries by a prefix of the middle. */
  lemma MiddlePrefix(cells: Cells, xs: seq<Write>, ys: seq<Write>, zs: seq<Write>, j: nat) returns (i: nat)
    requires j <= |xs + ys + zs|
    requires forall w :: w in xs ==> w.Store?
    requires forall w :: w in zs ==> w.Store?
    ensures i <= |ys| && CellsEffect(cells, (xs + ys + zs)[..j]) == CellsEffect(cells, ys[..i])
    ensures |xs| + |ys| <= j ==> i == |ys|
  {
    var all := xs + ys + zs;
    if j <= |xs| {
      i := 0;
      assert all[..j] == xs[..j];
      NoCells(cells, xs[..j]);
    } else if j <= |xs| + |ys| {
      i := j - |xs|;
      assert all[..j] == xs + ys[..i] + [];
      ThreeCells(cells, xs, ys[..i], []);
    } else {
      i := |ys|;
      assert all[..j] == xs + ys + zs[..j - |xs| - |ys|] && ys[..i] == ys;
      ThreeCells(cells, xs, ys, zs[..j - |xs| - |ys|]);
    }
    if j == |xs| && ys == [] {
      assert i == |ys|;
    }
  }

  /** Before the blanking every version to be kept still reads at its old position. */
  lemma FrontReads(x: Metadata, cells: Cells, e: Pos, total: nat, j: nat)
    requires Ready(Activate, x, total, e)
    requires var n := Target(Activate, x); n > 0 && j <= |ActivateFront(0, x, x, x.primary, cells, e, n)|
    ensures var n := Target(Activate, x);
            var p := x.primaryRing();
            n > 0 && Agree(CellsEffect(cells, ActivateFront(0, x, x, x.primary, cells, e, n)[..j]), p, cells, p, e,
                           KeptFrom(Activate, x, e), p.nextVersion)
  {
    PhaseFacts(Activate, x, x, total, e);
    var n, pi, p := Target(Activate, x), x.primary, x.primaryRing();
    var newLb := KeptFrom(Activate, x, e);
    ActivateStages(x, cells, e, total);
    ShrinkSpanIs(x, e, total);
    MovesNoCells(0, x, pi, n, 1 - pi, 0, n);
    var copies := ActivateCopies(0, x, x, pi, cells, e, n);
    var i := MiddlePrefix(cells, ActivateBump(0, x, pi, e, n), copies, MoveSlots(0, x, pi, n, 1 - pi, 0, n), j);
    SourcesAgree(cells, p, e, n, newLb, i);
  }

  lemma SourcesAgree(cells: Cells, p: Ring, e: Pos, n: Pos, newLb: nat, i: nat)
    requires p.len == 2 * n <= SLOTS && Distinct(p.slots[..2 * n]) && Window(newLb, p.nextVersion) <= Cap(n, e)
    requires i <= |Relocate(0, cells, p.slots[..2 * n], e, 2 * Cap(n, e), Cap(n, e), newLb,
                            Window(newLb, p.nextVersion))|
    ensures Agree(CellsEffect(cells, Relocate(0, cells, p.slots[..2 * n], e, 2 * Cap(n, e), Cap(n, e), newLb,
                                              Window(newLb, p.nextVersion))[..i]),
                  p, cells, p, e, newLb, p.nextVersion)
  {
    CapAdd(n, n, e);
    var ws := Relocate(0, cells, p.slots[..2 * n], e, 2 * Cap(n, e), Cap(n, e), newLb, Window(newLb, p.nextVersion));
    forall v | newLb <= v < p.nextVersion
      ensures RingRead(CellsEffect(cells, ws[..i]), p, e, v) == RingRead(cells, p, e, v)
    {
      ShrinkSources(0, cells, cells, p.slots[..2 * n], e, n, newLb, Window(newLb, p.nextVersion), v, i);
      ReadPrefix(cells, p.slots, e, 2 * n, 2 * Cap(n, e), v);
      ReadPrefix(CellsEffect(cells, ws[..i]), p.slots, e, 2 * n, 2 * Cap(n, e), v);
    }
  }

  /** After `j` stores of the body, the versions to be kept are readable at their old
      positions exactly when none of them was among the blanked entries. */
  lemma BodyPrefix(o: Disk, total: nat, d: Disk, j: nat)
    requires Quiescent(Activate, o, total) && StampedDisk(o, d) && j <= |Inner0(Activate, o, d)|
    ensures DataPre(Activate, o.m0, o.entries, o.cells0, CellsEffect(d.cells0, Inner0(Activate, o, d)[..j]))
            <==> NoLoss(o, BlankedBy(o, j))
  {
    var x, e, n := StampedMeta(o), o.entries, N(Activate, o);
    PhaseFacts(Activate, o.m0, x, total, e);
    var p := x.primaryRing();
    var front, blank := ActivateFront(0, x, x, x.primary, o.cells0, e, n), ActivateBlank(0, x, x.primary, e, n);
    var commit := ActivateCommit(0, x.primary, n);
    if j <= |front| {
      FrontReads(x, o.cells0, e, total, j);
      assert (front + blank + commit)[..j] == front[..j];
    } else {
      FrontReads(x, o.cells0, e, total, |front|);
      assert front[..|front|] == front;
      ActivateStages(x, o.cells0, e, total);
      BlankPrefix(x, o.cells0, e, n, p.slots[n..2 * n], j, BlankedBy(o, j));
      BlankLoss(o, total, CellsEffect(o.cells0, front), BlankedBy(o, j));
    }
  }

  lemma {:induction false} FillPrefix(c: Bit, ids: seq<nat>, e: Pos, lo: nat, n: nat, b: nat)
    requires b <= n
    ensures |Fill(c, ids, e, lo, n)| == n && Fill(c, ids, e, lo, n)[..b] == Fill(c, ids, e, lo, b)
  {
    FillInside(c, ids, e, lo, n);
    if b == n {
      assert Fill(c, ids, e, lo, n)[..n] == Fill(c, ids, e, lo, n);
    } else {
      FillPrefix(c, ids, e, lo, n - 1, b);
      assert Fill(c, ids, e, lo, n)[..b] == Fill(c, ids, e, lo, n - 1)[..b];
    }
  }

  lemma SecondPart(cells: Cells, front: seq<Write>, blank: seq<Write>, commit: seq<Write>, j: nat, b: nat)
    requires |front| <= j <= |front + blank + commit|
    requires b == (if j - |front| < |blank| then j - |front| else |blank|)
    requires forall i :: 0 <= i < |commit| ==> commit[i].Store?
    ensures CellsEffect(cells, (front + blank + commit)[..j]) == CellsEffect(CellsEffect(cells, front), blank[..b])
  {
    var part := blank[..b];
    if j - |front| <= |blank| {
      assert (front + blank + commit)[..j] == front + part;
      EffectAppend(Empty(), cells, front, part);
    } else {
      var tail := commit[..j - |front| - |blank|];
      assert part == blank;
      assert (front + blank + commit)[..j] == (front + blank) + tail;
      EffectAppend(Empty(), cells, front + blank, tail);
      EffectAppend(Empty(), cells, front, blank);
      NoCells(CellsEffect(CellsEffect(cells, front), blank), tail);
    }
  }

  lemma BlankPrefix(x: Metadata, cells: Cells, e: Pos, n: Pos, ids: seq<nat>, j: nat, b: nat)
    requires ActivateBlank(0, x, x.primary, e, n) == Fill(0, ids, e, 0, Cap(n, e))
    requires var f := |ActivateFront(0, x, x, x.primary, cells, e, n)|;
             f < j <= |ActivateInner(0, x, x, x.primary, cells, e, n)|
               && b == (if j - f < Cap(n, e) then j - f else Cap(n, e))
    ensures CellsEffect(cells, ActivateInner(0, x, x, x.primary, cells, e, n)[..j]) ==
            CellsEffect(CellsEffect(cells, ActivateFront(0, x, x, x.primary, cells, e, n)), Fill(0, ids, e, 0, b))
  {
    FillPrefix(0, ids, e, 0, Cap(n, e), b);
    SecondPart(cells, ActivateFront(0, x, x, x.primary, cells, e, n), ActivateBlank(0, x, x.primary, e, n),
               ActivateCommit(0, x.primary, n), j, b);
  }

  lemma BlankLoss(o: Disk, total: nat, cells: Cells, b: nat)
    requires Quiescent(Activate, o, total) && b <= Cap(N(Activate, o), o.entries)
    requires Agree(cells, o.m0.primaryRing(), o.cells0, o.m0.primaryRing(), o.entries,
                   KeptFrom(Activate, o.m0, o.entries), o.m0.primaryRing().nextVersion)
    ensures var n, p := N(Activate, o), o.m0.primaryRing();
            2 * n <= SLOTS && (DataPre(Activate, o.m0, o.entries, o.cells0,
                                       CellsEffect(cells, Fill(0, p.slots[n..2 * n], o.entries, 0, b)))
                               <==> NoLoss(o, b))
  {
    var n, p, e := N(Activate, o), o.m0.primaryRing(), o.entries;
    PhaseFacts(Activate, o.m0, o.m0, total, e);
    ShrinkSpanIs(o.m0, e, total);
    var after := CellsEffect(cells, Fill(0, p.slots[n..2 * n], e, 0, b));
    forall v | KeptFrom(Activate, o.m0, e) <= v < p.nextVersion
      ensures RingRead(after, p, e, v) ==
              if Cap(n, e) <= Wrap(v, 2 * Cap(n, e)) < Cap(n, e) + b then INVALID_OFFSET
                else RingRead(o.cells0, p, e, v)
    {
      BlankedRead(cells, p, e, n, b, v);
    }
  }

  // ---------------------------------------------------------------- the results

  /** After a crash at store `k` and one recovery, every query is answered as after a complete
      activation. */
  ghost predicate Survives(o: Disk, k: nat) {
    SameAnswers(Recovered(Crash(o, Operation(Activate, o), k)), Complete(Activate, o))
  }

  lemma StampPart(o: Disk, total: nat, k: nat)
    requires Quiescent(Activate, o, total) && SameLengths(o) && k <= 8
    ensures k < 4 ==> SameAnswers(Recovered(Crash(o, Operation(Activate, o), k)), o)
    ensures 4 <= k ==> Survives(o, k)
  {
    var st := Stamp(Activate, N(Activate, o));
    OperationIs(Activate, o);
    StampCrash(Activate, o, total, k);
    CrashFirst(o, st, Program(Activate, o, Run(o, st)), k);
    var e := Crash(o, st, k);
    OnePhase(Activate, o, View(e, 0), total);
    RecoveryExact(Activate, o, total, e);
    SettledLength(o, total, k);
  }

  /** On copies that agreed, one crash leaves copy 0 with the length a complete operation leaves. */
  lemma SettledLength(o: Disk, total: nat, k: nat)
    requires Quiescent(Activate, o, total) && SameLengths(o)
    ensures Recovered(Crash(o, Operation(Activate, o), k)).m0.historyLength ==
            if k < 4 then o.m0.historyLength else Capped(Activate, o, o.m0.historyLength)
  {
    LengthsAgreeIff(Activate, o, total, k);
    CompleteIs(Activate, o, total);
  }

  lemma ScopeLength(o: Disk, total: nat, d: Disk)
    requires Quiescent(Activate, o, total) && StampedDisk(o, d)
    ensures |BodyScope(Activate, d, d.m0, 0, N(Activate, o))| == FrontLen(o) + Cap(N(Activate, o), o.entries) + 7
  {
    PhaseFacts(Activate, o.m0, o.m0, total, o.entries);
    ActivateInside(0, d.m0, d.m0, d.m0.primary, d.cells0, d.entries, N(Activate, o));
  }

  lemma EarlyCrash(o: Disk, total: nat, d: Disk, k: nat)
    requires Quiescent(Activate, o, total) && StampedDisk(o, d)
    requires 8 < k < 15 + FrontLen(o) + Cap(N(Activate, o), o.entries)
    ensures var e := Crash(d, Program(Activate, o, d), k - 8);
            !RolledBack(Activate, o, e) && (Intact(Activate, o, e) <==> NoLoss(o, Blanked(o, k)))
  {
    ScopeLength(o, total, d);
    ProgramEarly(Activate, o, total, d, k - 8);
    OnePhase(Activate, o, d.m1, total);
    BodyPrefix(o, total, d, k - 9);
  }

  lemma LateCrash(o: Disk, total: nat, d: Disk, k: nat)
    requires Quiescent(Activate, o, total) && StampedDisk(o, d)
    requires 15 + FrontLen(o) + Cap(N(Activate, o), o.entries) <= k
    ensures var e := Crash(d, Program(Activate, o, d), k - 8);
            !RolledBack(Activate, o, e) && Intact(Activate, o, e)
  {
    ScopeLength(o, total, d);
    ProgramLate(Activate, o, total, d, k - 8);
    FreshBody(Activate, o, total, d);
    OnePhase(Activate, o, View(Crash(d, Program(Activate, o, d), k - 8), 0), total);
  }

  lemma BodyPart(o: Disk, total: nat, k: nat)
    requires Quiescent(Activate, o, total) && SameLengths(o) && 8 < k
    ensures Survives(o, k) <==> NoLoss(o, Blanked(o, k))
  {
    var st := Stamp(Activate, N(Activate, o));
    var d := Run(o, st);
    OperationIs(Activate, o);
    StampCrash(Activate, o, total, 8);
    CrashSecond(o, st, Program(Activate, o, d), k);
    var e := Crash(d, Program(Activate, o, d), k - 8);
    ProgramCrash(Activate, o, total, d, k - 8);
    RecoveryExact(Activate, o, total, e);
    SettledLength(o, total, k);
    if k < 15 + FrontLen(o) + Cap(N(Activate, o), o.entries) {
      EarlyCrash(o, total, d, k);
    } else {
      LateCrash(o, total, d, k);
    }
  }

  /** One crash after `k` stores of activation.  Before the fourth store nothing happened.
      After it, recovery answers every query as a complete activation does exactly when no
      version to be kept was among the entries blanked so far. */
  lemma ActivateOneCrash(o: Disk, total: nat, k: nat)
    requires Quiescent(Activate, o, total) && SameLengths(o)
    ensures k < 4 ==> SameAnswers(Recovered(Crash(o, Operation(Activate, o), k)), o)
    ensures 4 <= k ==> (Survives(o, k) <==> NoLoss(o, Blanked(o, k)))
  {
    if k <= 8 {
      StampPart(o, total, k);
      assert Blanked(o, k) == 0;
    } else {
      BodyPart(o, total, k);
    }
  }

  /** Activation survives a crash at every store exactly when, before the call, no version it
      must keep is stored in the half of the ring it gives away. */
  lemma ActivateCrashSafeIff(o: Disk, total: nat)
    requires Quiescent(Activate, o, total) && SameLengths(o)
    ensures (forall k :: 4 <= k ==> Survives(o, k)) <==> NoLoss(o, Cap(N(Activate, o), o.entries))
  {
    var cap := Cap(N(Activate, o), o.entries);
    if NoLoss(o, cap) {
      forall k | 4 <= k ensures Survives(o, k) {
        ActivateOneCrash(o, total, k);
      }
    } else {
      var k := 9 + FrontLen(o) + cap;
      assert Blanked(o, k) == BlankedBy(o, FrontLen(o) + cap) == cap;
      ActivateOneCrash(o, total, k);
      assert !Survives(o, k);
    }
  }

  // ---------------------------------------------------------------- a disk on which it happens

  /** Two chunks of one entry each; the only version to be kept is stored in the second. */
  function SmallPool(): Disk {
    var a := Ring(1, 2, 2, [1, 2] + Nulls(29), 0);
    var b := Ring(0, 0, 0, Nulls(31), 0);
    var m := Metadata(a, b, 0, false, NoOp, 0, 2, Consensus(0, 0, 0, 0, 0, 0));
    Disk(1, false, false, m, m, map[(2, 0) := 7], map[(2, 0) := 7])
  }

  lemma SmallPoolReady()
    ensures Quiescent(Activate, SmallPool(), 2) && SameLengths(SmallPool())
  {
    var m := SmallPool().m0;
    assert PowerOfTwo(1);
    assert PowerOfTwo(2 / 2);
    var ids := m.a.slots[..2] + m.b.slots[..0];
    assert ids == [1, 2];
    assert Cap(0, 1) == 0 && Cap(1, 1) == 1 && Cap(2, 1) == 2;
    assert InWindow(m.a, 1);
    assert Permutation(ids, 2);
  }

  /** Version `v` must be kept and is stored in the leaving half. */
  ghost predicate Endangered(o: Disk, v: nat) {
    var p, cap := o.m0.primaryRing(), Cap(N(Activate, o), o.entries);
    && KeptFrom(Activate, o.m0, o.entries) <= v < p.nextVersion && 0 < cap <= Wrap(v, 2 * cap)
    && RingRead(o.cells0, p, o.entries, v) != INVALID_OFFSET
  }

  lemma EndangeredPool() returns (o: Disk, v: nat)
    ensures Quiescent(Activate, o, 2) && SameLengths(o) && Endangered(o, v)
  {
    o, v := SmallPool(), 1;
    SmallPoolReady();
    var p := o.m0.primaryRing();
    assert Cap(0, 1) == 0 && Cap(1, 1) == 1 && Cap(2, 1) == 2 && Wrap(1, 2) == 1;
    assert p.slots[1..][0] == 2;
    assert Locate(p.slots[1..], 1, 0) == (2, 0);
    assert RingRead(o.cells0, p, 1, 1) == 7;
  }

  /** The exception is needed: there is a disk on which a crash right after the blanking loses a version. */
  lemma ActivateLosesVersion() returns (o: Disk, k: nat)
    ensures Quiescent(Activate, o, 2) && SameLengths(o) && 4 <= k && !Survives(o, k)
  {
    var v;
    o, v := EndangeredPool();
    ActivateCrashSafeIff(o, 2);
    assert !NoLoss(o, Cap(N(Activate, o), o.entries));
    k :| 4 <= k && !Survives(o, k);
  }
}
