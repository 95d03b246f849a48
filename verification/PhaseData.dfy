/**
 What the bodies do to the ring entries of a copy, for any starting entries: the entries a
 complete body produces, and the entries no prefix of a body disturbs.
 */
module PhaseData {
  import opened Disk
  import opened Programs
  import opened Arithmetic
  import opened RingData
  import opened Phases

  /** The entry ring `r` holds for version `v`. */
  function RingRead(cells: Cells, r: Ring, e: Pos, v: nat): Offset {
    if r.len == 0 then INVALID_OFFSET else ReadRing(cells, r.slots, e, Cap(r.len, e), v)
  }

  /** Ring `r` reads from `cells` what ring `r0` reads from `cells0`, for versions `lo .. hi`. */
  ghost predicate Agree(cells: Cells, r: Ring, cells0: Cells, r0: Ring, e: Pos, lo: nat, hi: nat) {
    forall v :: lo <= v < hi ==> RingRead(cells, r, e, v) == RingRead(cells0, r0, e, v)
  }

  ghost predicate AgreeWindow(cells: Cells, cells0: Cells, r: Ring, e: Pos) {
    Agree(cells, r, cells0, r, e, r.lowerBound, r.nextVersion)
  }

  /** The oldest primary version the operation promises to keep. */
  function KeptFrom(op: OpKind, m: Metadata, e: Pos): nat {
    var p := m.primaryRing();
    if op == Activate then RaisedLowerBound(p, Cap(Target(op, m), e)) else p.lowerBound
  }

  /** Every query that `m` admits reads the same entry from `cells` as from `cells0`. */
  ghost predicate DataSame(m: Metadata, e: Pos, cells0: Cells, cells: Cells) {
    && AgreeWindow(cells, cells0, m.primaryRing(), e)
    && (m.active ==> AgreeWindow(cells, cells0, m.secondaryRing(), e))
  }

  /** The entries a rerun of the operation needs are still there. */
  ghost predicate DataPre(op: OpKind, m: Metadata, e: Pos, cells0: Cells, cells: Cells) {
    if op == Promote then DataSame(m, e, cells0, cells)
    else Agree(cells, m.primaryRing(), cells0, m.primaryRing(), e, KeptFrom(op, m, e), m.primaryRing().nextVersion)
  }

  /** The entries a completed operation promises are in place. */
  ghost predicate DataPost(op: OpKind, m: Metadata, e: Pos, cells0: Cells, cells: Cells) {
    if op == Promote then DataSame(m, e, cells0, cells)
    else Agree(cells, PostMeta(op, m, e, Target(op, m)).primaryRing(), cells0, m.primaryRing(), e,
               KeptFrom(op, m, e), m.primaryRing().nextVersion)
  }

  // ---------------------------------------------------------------- header writes keep cells

  lemma {:induction false} MovesNoCells(c: Bit, x: Metadata, from: Bit, fromBase: nat, to: Bit, toBase: nat, n: nat)
    ensures forall w :: w in MoveSlots(c, x, from, fromBase, to, toBase, n) ==> w.Store?
  {
    if n != 0 {
      MovesNoCells(c, x, from, fromBase, to, toBase, n - 1);
    }
  }

  lemma ThreeCells(cells: Cells, xs: seq<Write>, ys: seq<Write>, zs: seq<Write>)
    requires forall i :: 0 <= i < |xs| ==> xs[i].Store?
    requires forall i :: 0 <= i < |zs| ==> zs[i].Store?
    ensures CellsEffect(cells, xs + ys + zs) == CellsEffect(cells, ys)
  {
    EffectAppend(Empty(), cells, xs, ys);
    EffectAppend(Empty(), cells, xs + ys, zs);
    NoCells(cells, xs);
    NoCells(CellsEffect(cells, ys), zs);
  }

  // ---------------------------------------------------------------- reading through a prefix of the chunk list

  lemma ReadPrefix(cells: Cells, slots: seq<nat>, e: Pos, n: Pos, cap: Pos, v: nat)
    requires n <= |slots| && cap <= Cap(n, e)
    ensures ReadRing(cells, slots, e, cap, v) == ReadRing(cells, slots[..n], e, cap, v)
    ensures Locate(slots, e, Wrap(v, cap)).0 in slots[..n]
  {
    LocateHead(slots, e, n, Wrap(v, cap));
  }

  // ---------------------------------------------------------------- deactivate

  lemma GrowSpanIs(x: Metadata, e: Pos, total: nat)
    requires Ready(Deactivate, x, total, e)
    ensures var p, s := x.primaryRing(), x.secondaryRing();
            && GrowSpan(x, x, x.primary, Target(Deactivate, x)) == p.slots[..p.len] + s.slots[..p.len]
            && Distinct(p.slots[..p.len] + s.slots[..p.len])
            && Window(p.len, Target(Deactivate, x)) == p.len
  {
    PhaseFacts(Deactivate, x, x, total, e);
    var p, s := x.primaryRing(), x.secondaryRing();
    var h := p.len;
    assert MovedIds(x, 1 - x.primary, 0, x.primary, h, h) == s.slots[..h];
  }

  lemma GrowDataIs(c: Bit, x: Metadata, cells: Cells, e: Pos, total: nat)
    requires Ready(Deactivate, x, total, e)
    ensures var p, s := x.primaryRing(), x.secondaryRing();
            DeactivateData(c, x, x, x.primary, cells, e, Target(Deactivate, x)) ==
            GrowWrites(c, cells, p.slots[..p.len] + s.slots[..p.len], e, p.len, p.lowerBound,
                       p.nextVersion - p.lowerBound)
  {
    PhaseFacts(Deactivate, x, x, total, e);
    GrowSpanIs(x, e, total);
    CapAdd(x.primaryRing().len, x.primaryRing().len, e);
  }

  lemma GrowAgree(cells: Cells, p: Ring, s: SlotList, q: Ring, e: Pos)
    requires 0 < p.len && 2 * p.len <= SLOTS && InWindow(p, e)
    requires q.len == 2 * p.len && q.slots[..q.len] == p.slots[..p.len] + s[..p.len]
             && Distinct(p.slots[..p.len] + s[..p.len])
    ensures Agree(CellsEffect(cells, GrowWrites(0, cells, p.slots[..p.len] + s[..p.len], e, p.len, p.lowerBound,
                                                p.nextVersion - p.lowerBound)),
                  q, cells, p, e, p.lowerBound, p.nextVersion)
  {
    var h, n := p.len, q.len;
    var span := p.slots[..h] + s[..h];
    CapAdd(h, h, e);
    var cells' := CellsEffect(cells, GrowWrites(0, cells, span, e, h, p.lowerBound, p.nextVersion - p.lowerBound));
    forall v | p.lowerBound <= v < p.nextVersion ensures RingRead(cells', q, e, v) == RingRead(cells, p, e, v) {
      GrowReads(0, cells, span, e, h, p.lowerBound, p.nextVersion - p.lowerBound, v);
      ReadPrefix(cells', q.slots, e, n, 2 * Cap(h, e), v);
      SameHead(cells, p.slots, s, e, h, v);
    }
  }

  lemma SameHead(cells: Cells, p: SlotList, s: SlotList, e: Pos, h: Pos, v: nat)
    requires h <= SLOTS
    ensures ReadRing(cells, p, e, Cap(h, e), v) == ReadRing(cells, p[..h] + s[..h], e, Cap(h, e), v)
  {
    var span := p[..h] + s[..h];
    ReadPrefix(cells, p, e, h, Cap(h, e), v);
    ReadPrefix(cells, span, e, h, Cap(h, e), v);
    assert span[..h] == p[..h];
  }

  lemma DeactivateEffect(x: Metadata, cells: Cells, e: Pos, total: nat)
    requires Ready(Deactivate, x, total, e)
    ensures var n := Target(Deactivate, x);
            var p, s := x.primaryRing(), x.secondaryRing();
            CellsEffect(cells, DeactivateInner(0, x, x, x.primary, cells, e, n)) ==
            CellsEffect(cells, GrowWrites(0, cells, p.slots[..p.len] + s.slots[..p.len], e, p.len, p.lowerBound,
                                          p.nextVersion - p.lowerBound))
  {
    var n, pi := Target(Deactivate, x), x.primary;
    var h := x.primaryRing().len;
    MovesNoCells(0, x, 1 - pi, 0, pi, h, Window(h, n));
    ThreeCells(cells, DeactivateMoves(0, x, pi, n), DeactivateData(0, x, x, pi, cells, e, n),
               DeactivateCommit(0, pi, n));
    GrowDataIs(0, x, cells, e, total);
  }

  /** A complete deactivation reads every live primary version as before. */
  lemma DeactivateCells(x: Metadata, cells: Cells, e: Pos, total: nat)
    requires Ready(Deactivate, x, total, e)
    ensures var n := Target(Deactivate, x);
            var p := x.primaryRing();
            Agree(CellsEffect(cells, DeactivateInner(0, x, x, x.primary, cells, e, n)),
                  PostMeta(Deactivate, x, e, n).primaryRing(),
                  cells, p, e, p.lowerBound, p.nextVersion)
  {
    PhaseFacts(Deactivate, x, x, total, e);
    var n := Target(Deactivate, x);
    var p, s := x.primaryRing(), x.secondaryRing();
    DeactivateEffect(x, cells, e, total);
    GrowSpanIs(x, e, total);
    var q := PostMeta(Deactivate, x, e, n).primaryRing();
    assert q.slots[..n] == p.slots[..p.len] + s.slots[..p.len];
    GrowAgree(cells, p, s.slots, q, e);
  }

  /** Writes outside a ring's chunks keep every entry of the ring. */
  lemma OtherChunks(cells: Cells, ws: seq<Write>, r: Ring, e: Pos, ids: set<nat>, v: nat)
    requires WritesWithin(ws, ids) && r.len <= SLOTS
    requires forall i :: 0 <= i < r.len ==> r.slots[i] !in ids
    ensures RingRead(CellsEffect(cells, ws), r, e, v) == RingRead(cells, r, e, v)
  {
    if r.len > 0 {
      ReadPrefix(cells, r.slots, e, r.len, Cap(r.len, e), v);
      UntouchedChunks(cells, ws, ids, Locate(r.slots, e, Wrap(v, Cap(r.len, e))));
    }
  }

  lemma DeactivateWithin(x: Metadata, cells: Cells, e: Pos, total: nat)
    requires Ready(Deactivate, x, total, e)
    ensures var h := x.primaryRing().len;
            WritesWithin(DeactivateInner(0, x, x, x.primary, cells, e, Target(Deactivate, x)),
                         set i | i in x.secondaryRing().slots[..h])
  {
    PhaseFacts(Deactivate, x, x, total, e);
    var n, pi := Target(Deactivate, x), x.primary;
    var p, s := x.primaryRing(), x.secondaryRing();
    var h := p.len;
    var span := p.slots[..h] + s.slots[..h];
    MovesNoCells(0, x, 1 - pi, 0, pi, h, Window(h, n));
    GrowDataIs(0, x, cells, e, total);
    var data := DeactivateData(0, x, x, pi, cells, e, n);
    GrowWithin(0, cells, span, e, h, p.lowerBound, p.nextVersion - p.lowerBound, |data|);
    assert data[..|data|] == data && span[h..] == s.slots[..h];
    WithinParts(DeactivateMoves(0, x, pi, n), data, DeactivateCommit(0, pi, n), set i | i in s.slots[..h]);
  }

  lemma WithinParts(xs: seq<Write>, ys: seq<Write>, zs: seq<Write>, ids: set<nat>)
    requires forall w :: w in xs ==> w.Store?
    requires WritesWithin(ys, ids)
    requires forall w :: w in zs ==> w.Store?
    ensures WritesWithin(xs + ys + zs, ids)
  {
  }

  lemma ListsDisjoint(x: Metadata, total: nat, e: Pos)
    requires WellFormed(x, total, e)
    ensures var p, s := x.primaryRing(), x.secondaryRing();
            forall i, j :: 0 <= i < p.len && 0 <= j < s.len ==> p.slots[i] != s.slots[j]
  {
    var p, s := x.primaryRing(), x.secondaryRing();
    var ids := p.slots[..p.len] + s.slots[..s.len];
    forall i, j | 0 <= i < p.len && 0 <= j < s.len ensures p.slots[i] != s.slots[j] {
      assert ids[i] == p.slots[i] && ids[p.len + j] == s.slots[j];
    }
  }

  /** No prefix of a deactivation disturbs an entry of the primary ring as it was. */
  lemma DeactivatePrefix(x: Metadata, cells: Cells, e: Pos, total: nat, k: nat)
    requires Ready(Deactivate, x, total, e)
    requires k <= |DeactivateInner(0, x, x, x.primary, cells, e, Target(Deactivate, x))|
    ensures var n := Target(Deactivate, x);
            AgreeWindow(CellsEffect(cells, DeactivateInner(0, x, x, x.primary, cells, e, n)[..k]), cells,
                        x.primaryRing(), e)
  {
    var inner := DeactivateInner(0, x, x, x.primary, cells, e, Target(Deactivate, x));
    var p, s := x.primaryRing(), x.secondaryRing();
    DeactivateWithin(x, cells, e, total);
    ListsDisjoint(x, total, e);
    var ids := set i | i in s.slots[..p.len];
    forall v | p.lowerBound <= v < p.nextVersion
      ensures RingRead(CellsEffect(cells, inner[..k]), p, e, v) == RingRead(cells, p, e, v)
    {
      OtherChunks(cells, inner[..k], p, e, ids, v);
    }
  }

  // ---------------------------------------------------------------- activate

  lemma ShrinkSpanIs(x: Metadata, e: Pos, total: nat)
    requires Ready(Activate, x, total, e)
    ensures var n, p := Target(Activate, x), x.primaryRing();
            && ShrinkSpan(x, x, x.primary, n) == p.slots[..2 * n]
            && MovedIds(x, x.primary, n, 1 - x.primary, 0, n) == p.slots[n..2 * n]
            && Distinct(p.slots[..2 * n])
  {
    PhaseFacts(Activate, x, x, total, e);
    var n, p := Target(Activate, x), x.primaryRing();
    assert p.slots[..total] + x.secondaryRing().slots[..0] == p.slots[..2 * n];
    forall k | n <= k < 2 * n ensures p.slots[k] != NULL_CHUNK {
      UsedSlot(x, total, e, k);
    }
    assert MovedIds(x, 1 - x.primary, 0, x.primary, n, n) == p.slots[n..2 * n];
    assert MovedIds(x, x.primary, n, 1 - x.primary, 0, n) == p.slots[n..2 * n];
    assert p.slots[..n] + p.slots[n..2 * n] == p.slots[..2 * n];
  }

  /** Cells before and after the blanking, for the header writes in between change none. */
  lemma ActivateStages(x: Metadata, cells: Cells, e: Pos, total: nat)
    requires Ready(Activate, x, total, e)
    ensures var n := Target(Activate, x);
            var p := x.primaryRing();
            var newLb := KeptFrom(Activate, x, e);
            && n > 0
            && ActivateCopies(0, x, x, x.primary, cells, e, n)
               == Relocate(0, cells, p.slots[..2 * n], e, 2 * Cap(n, e), Cap(n, e), newLb, Window(newLb, p.nextVersion))
            && Window(newLb, p.nextVersion) <= Cap(n, e) && newLb + Window(newLb, p.nextVersion) == p.nextVersion
            && CellsEffect(cells, ActivateFront(0, x, x, x.primary, cells, e, n))
               == CellsEffect(cells, ActivateCopies(0, x, x, x.primary, cells, e, n))
            && ActivateBlank(0, x, x.primary, e, n) == Fill(0, p.slots[n..2 * n], e, 0, Cap(n, e))
  {
    PhaseFacts(Activate, x, x, total, e);
    var n, pi := Target(Activate, x), x.primary;
    ShrinkSpanIs(x, e, total);
    MovesNoCells(0, x, pi, n, 1 - pi, 0, n);
    ThreeCells(cells, ActivateBump(0, x, pi, e, n), ActivateCopies(0, x, x, pi, cells, e, n),
               MoveSlots(0, x, pi, n, 1 - pi, 0, n));
  }

  lemma ShrinkAgree(cells: Cells, p: Ring, q: Ring, e: Pos, n: Pos, newLb: nat)
    requires p.len == 2 * n <= SLOTS && q.len == n && q.slots[..n] == p.slots[..n] && Distinct(p.slots[..2 * n])
    requires Window(newLb, p.nextVersion) <= Cap(n, e)
    ensures var moved := CellsEffect(cells,
                                     Relocate(0, cells, p.slots[..2 * n], e, 2 * Cap(n, e), Cap(n, e), newLb,
                                              Window(newLb, p.nextVersion)));
            Agree(CellsEffect(moved, Fill(0, p.slots[n..2 * n], e, 0, Cap(n, e))), q, cells, p, e, newLb, p.nextVersion)
  {
    var moved := CellsEffect(cells,
                             Relocate(0, cells, p.slots[..2 * n], e, 2 * Cap(n, e), Cap(n, e), newLb,
                                      Window(newLb, p.nextVersion)));
    var done := CellsEffect(moved, Fill(0, p.slots[n..2 * n], e, 0, Cap(n, e)));
    CapAdd(n, n, e);
    forall v | newLb <= v < p.nextVersion ensures RingRead(done, q, e, v) == RingRead(cells, p, e, v) {
      ShrinkReads(0, cells, p.slots[..2 * n], e, n, newLb, Window(newLb, p.nextVersion), v);
      KeptHalf(moved, p.slots, q.slots, e, n, v);
      KeptHalf(done, p.slots, q.slots, e, n, v);
      ReadPrefix(cells, p.slots, e, 2 * n, 2 * Cap(n, e), v);
      BlankKeeps(moved, p.slots, e, n, Cap(n, e), v);
    }
  }

  lemma ActivateEffect(x: Metadata, cells: Cells, e: Pos, n: Pos)
    ensures CellsEffect(cells, ActivateInner(0, x, x, x.primary, cells, e, n)) ==
            CellsEffect(CellsEffect(cells, ActivateFront(0, x, x, x.primary, cells, e, n)),
                        ActivateBlank(0, x, x.primary, e, n))
  {
    var front, blank := ActivateFront(0, x, x, x.primary, cells, e, n), ActivateBlank(0, x, x.primary, e, n);
    var commit := ActivateCommit(0, x.primary, n);
    EffectAppend(x, cells, front + blank, commit);
    EffectAppend(x, cells, front, blank);
    NoCells(CellsEffect(cells, front + blank), commit);
  }

  /** A complete activation reads every kept primary version as before. */
  lemma ActivateCells(x: Metadata, cells: Cells, e: Pos, total: nat)
    requires Ready(Activate, x, total, e)
    ensures var n := Target(Activate, x);
            var p := x.primaryRing();
            n > 0 && Agree(CellsEffect(cells, ActivateInner(0, x, x, x.primary, cells, e, n)),
                           PostMeta(Activate, x, e, n).primaryRing(),
                           cells, p, e, KeptFrom(Activate, x, e), p.nextVersion)
  {
    PhaseFacts(Activate, x, x, total, e);
    ActivateStages(x, cells, e, total);
    ShrinkSpanIs(x, e, total);
    var n, p := Target(Activate, x), x.primaryRing();
    ActivateEffect(x, cells, e, n);
    var q := PostMeta(Activate, x, e, n).primaryRing();
    assert q.slots[..n] == p.slots[..n];
    ShrinkAgree(cells, p, q, e, n, KeptFrom(Activate, x, e));
  }

  /** Reads under the halved capacity stay within the kept half of the chunk list. */
  lemma KeptHalf(cells: Cells, p: SlotList, q: SlotList, e: Pos, n: Pos, v: nat)
    requires 2 * n <= SLOTS && q[..n] == p[..n]
    ensures ReadRing(cells, q, e, Cap(n, e), v) == ReadRing(cells, p[..n], e, Cap(n, e), v)
            == ReadRing(cells, p[..2 * n], e, Cap(n, e), v)
  {
    ReadPrefix(cells, q, e, n, Cap(n, e), v);
    ReadPrefix(cells, p[..2 * n], e, n, Cap(n, e), v);
    assert p[..2 * n][..n] == p[..n];
  }

  lemma FillWithin(c: Bit, ids: seq<nat>, e: Pos, k: nat)
    requires k <= Cap(|ids|, e)
    ensures WritesWithin(Fill(c, ids, e, 0, k), set i | i in ids)
  {
    FillShape(c, ids, e, 0, k);
    forall i | 0 <= i < k ensures Locate(ids, e, i).0 in ids {
      LocateHead(ids, e, |ids|, i);
      assert ids[..|ids|] == ids;
    }
  }

  /** Blanking the leaving half, or part of it, keeps the entries of the kept half. */
  lemma BlankKeeps(cells: Cells, p: SlotList, e: Pos, n: Pos, k: nat, v: nat)
    requires 2 * n <= SLOTS && Distinct(p[..2 * n]) && k <= Cap(n, e)
    ensures ReadRing(CellsEffect(cells, Fill(0, p[n..2 * n], e, 0, k)), p[..n], e, Cap(n, e), v)
            == ReadRing(cells, p[..n], e, Cap(n, e), v)
  {
    var ids := p[n..2 * n];
    FillWithin(0, ids, e, k);
    var cell := Locate(p[..n], e, Wrap(v, Cap(n, e)));
    LocateHead(p[..n], e, n, Wrap(v, Cap(n, e)));
    assert p[..n][..n] == p[..n];
    var i :| 0 <= i < n && p[..n][i] == cell.0;
    forall j | 0 <= j < n ensures ids[j] != cell.0 {
      assert p[..2 * n][n + j] == ids[j] && p[..2 * n][i] == cell.0;
    }
    UntouchedChunks(cells, Fill(0, ids, e, 0, k), (set x | x in ids), cell);
  }

  /** Rerunning activation on an activated copy touches only the secondary's chunks. */
  lemma ActivateRerun(y: Metadata, mount: Metadata, cells: Cells, e: Pos, total: nat, k: nat)
    requires Ready(Activate, y, total, e)
    requires var n := Target(Activate, y);
             n > 0 && k <= |ActivateInner(0, PostMeta(Activate, y, e, n), mount, y.primary, cells, e, n)|
    ensures var n := Target(Activate, y);
            var x := PostMeta(Activate, y, e, n);
            var q := x.primaryRing();
            n > 0 && forall v :: RingRead(CellsEffect(cells, ActivateInner(0, x, mount, y.primary, cells, e, n)[..k]),
                                          q, e, v)
                                 == RingRead(cells, q, e, v)
  {
    PhaseFacts(Activate, y, y, total, e);
    var n := Target(Activate, y);
    var x := PostMeta(Activate, y, e, n);
    var inner := ActivateInner(0, x, mount, y.primary, cells, e, n);
    RerunWithin(y, mount, cells, e, total);
    var ids := set i | i in y.primaryRing().slots[n..2 * n];
    HalvesDisjoint(y, e, total);
    forall v ensures RingRead(CellsEffect(cells, inner[..k]), x.primaryRing(), e, v)
      == RingRead(cells, x.primaryRing(), e, v) {
      OtherChunks(cells, inner[..k], x.primaryRing(), e, ids, v);
    }
  }

  lemma RerunWithin(y: Metadata, mount: Metadata, cells: Cells, e: Pos, total: nat)
    requires Ready(Activate, y, total, e)
    ensures var n := Target(Activate, y);
            n > 0 && WritesWithin(ActivateInner(0, PostMeta(Activate, y, e, n), mount, y.primary, cells, e, n),
                                  set i | i in y.primaryRing().slots[n..2 * n])
  {
    PhaseFacts(Activate, y, y, total, e);
    ActivateAgain(0, y, mount, cells, e, total);
    var n := Target(Activate, y);
    FillWithin(0, y.primaryRing().slots[n..2 * n], e, Cap(n, e));
  }

  lemma HalvesDisjoint(y: Metadata, e: Pos, total: nat)
    requires Ready(Activate, y, total, e)
    ensures var n := Target(Activate, y);
            var q := PostMeta(Activate, y, e, n).primaryRing();
            q.len == n && forall i :: 0 <= i < n ==> q.slots[i] !in y.primaryRing().slots[n..2 * n]
  {
    PhaseFacts(Activate, y, y, total, e);
    ShrinkSpanIs(y, e, total);
    var n, p := Target(Activate, y), y.primaryRing();
    var q := PostMeta(Activate, y, e, n).primaryRing();
    forall i | 0 <= i < n ensures q.slots[i] !in p.slots[n..2 * n] {
      assert p.slots[..2 * n][i] == q.slots[i];
      forall j | 0 <= j < n ensures p.slots[n..2 * n][j] != q.slots[i] {
        assert p.slots[..2 * n][n + j] == p.slots[n..2 * n][j];
      }
    }
  }
}
