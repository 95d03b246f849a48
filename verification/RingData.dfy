/**
 What filling and relocating ring entries does to the entries a ring reads.  These facts
 hold for any starting cells, so they apply to partial reruns as well.
 */
module RingData {
  import opened Disk
  import opened Programs
  import opened Arithmetic

  /** Every ring entry written belongs to one of the given chunks. */
  predicate WritesWithin(ws: seq<Write>, ids: set<nat>) {
    forall w :: w in ws && w.Cell? ==> w.at.0 in ids
  }

  // ---------------------------------------------------------------- effects

  lemma {:induction false} Untouched(cells: Cells, ws: seq<Write>, cell: (nat, nat))
    requires forall i :: 0 <= i < |ws| && ws[i].Cell? ==> ws[i].at != cell
    ensures At(CellsEffect(cells, ws), cell) == At(cells, cell)
  {
    if ws != [] {
      Untouched(cells, ws[..|ws| - 1], cell);
    }
  }

  lemma UntouchedChunks(cells: Cells, ws: seq<Write>, ids: set<nat>, cell: (nat, nat))
    requires WritesWithin(ws, ids) && cell.0 !in ids
    ensures At(CellsEffect(cells, ws), cell) == At(cells, cell)
  {
    Untouched(cells, ws, cell);
  }

  lemma {:induction false} FillShape(c: Bit, span: seq<nat>, e: Pos, lo: nat, n: nat)
    ensures var ws := Fill(c, span, e, lo, n);
            && |ws| == n
            && forall i :: 0 <= i < n ==> ws[i] == Cell(c, Locate(span, e, lo + i), INVALID_OFFSET)
  {
    if n != 0 {
      FillShape(c, span, e, lo, n - 1);
    }
  }

  /** The write puts some version of `lo .. lo + n` that moves at its new position. */
  ghost predicate Serves(w: Write, span: seq<nat>, e: Pos, oldCap: Pos, newCap: Pos, lo: nat, n: nat) {
    && w.Cell?
    && exists v :: lo <= v < lo + n && Wrap(v, oldCap) != Wrap(v, newCap) && w.at == Locate(span, e, Wrap(v, newCap))
  }

  /** A blanked position reads as invalid. */
  lemma {:induction false} FilledAt(cells: Cells, span: seq<nat>, e: Pos, lo: nat, n: nat, i: nat)
    requires i < n
    ensures At(CellsEffect(cells, Fill(0, span, e, lo, n)), Locate(span, e, lo + i)) == INVALID_OFFSET
  {
    var ws := Fill(0, span, e, lo, n);
    assert ws[..|ws| - 1] == Fill(0, span, e, lo, n - 1);
    if i < n - 1 {
      FilledAt(cells, span, e, lo, n - 1, i);
    }
  }

  lemma {:induction false} RelocateShape(c: Bit, cells: Cells, span: seq<nat>, e: Pos, oldCap: Pos, newCap: Pos,
                                         lo: nat, n: nat)
    ensures forall w :: w in Relocate(c, cells, span, e, oldCap, newCap, lo, n) ==>
            Serves(w, span, e, oldCap, newCap, lo, n)
  {
    if n != 0 {
      RelocateShape(c, cells, span, e, oldCap, newCap, lo, n - 1);
    }
  }

  /** After relocation every moved version reads its source's value at its new position. */
  lemma {:induction false} RelocateReads(c: Bit, cells: Cells, src: Cells, span: seq<nat>, e: Pos, oldCap: Pos,
                                         newCap: Pos,
                                         lo: nat, n: nat, v: nat)
    requires Distinct(span) && newCap <= Cap(|span|, e) && n <= newCap
    requires lo <= v < lo + n && Wrap(v, oldCap) != Wrap(v, newCap)
    ensures At(CellsEffect(cells, Relocate(c, src, span, e, oldCap, newCap, lo, n)), Locate(span, e, Wrap(v, newCap)))
            == At(src, Locate(span, e, Wrap(v, oldCap)))
  {
    var ws := Relocate(c, src, span, e, oldCap, newCap, lo, n);
    var pre := Relocate(c, src, span, e, oldCap, newCap, lo, n - 1);
    var last := lo + n - 1;
    if v == last {
      assert ws[..|ws| - 1] == pre;
    } else {
      RelocateReads(c, cells, src, span, e, oldCap, newCap, lo, n - 1, v);
      if Wrap(last, oldCap) != Wrap(last, newCap) {
        assert ws[..|ws| - 1] == pre;
        WrapDistinct(v, last, newCap);
        LocateDiffer(span, e, Wrap(v, newCap), Wrap(last, newCap));
      } else {
        assert ws == pre;
      }
    }
  }

  /** A version that keeps its position is not a relocation target. */
  lemma RelocateKeeps(c: Bit, cells: Cells, src: Cells, span: seq<nat>, e: Pos, oldCap: Pos, newCap: Pos,
                      lo: nat, n: nat, v: nat, k: nat)
    requires Distinct(span) && oldCap <= Cap(|span|, e) && newCap <= Cap(|span|, e) && n <= newCap
    requires lo <= v < lo + n
    requires Wrap(v, oldCap) == Wrap(v, newCap) || (newCap <= oldCap && newCap <= Wrap(v, oldCap))
    requires k <= |Relocate(c, src, span, e, oldCap, newCap, lo, n)|
    ensures At(CellsEffect(cells, Relocate(c, src, span, e, oldCap, newCap, lo, n)[..k]),
               Locate(span, e, Wrap(v, oldCap)))
            == At(cells, Locate(span, e, Wrap(v, oldCap)))
  {
    var ws := Relocate(c, src, span, e, oldCap, newCap, lo, n);
    RelocateShape(c, src, span, e, oldCap, newCap, lo, n);
    forall i | 0 <= i < k && ws[i].Cell? ensures ws[i].at != Locate(span, e, Wrap(v, oldCap)) {
      assert Serves(ws[i], span, e, oldCap, newCap, lo, n);
      var w :| lo <= w < lo + n && Wrap(w, oldCap) != Wrap(w, newCap) && ws[i].at == Locate(span, e, Wrap(w, newCap));
      if Wrap(v, oldCap) == Wrap(v, newCap) {
        if v < w { WrapDistinct(v, w, newCap); } else if w < v { WrapDistinct(w, v, newCap); }
      }
      LocateDiffer(span, e, Wrap(v, oldCap), Wrap(w, newCap));
    }
    Untouched(cells, ws[..k], Locate(span, e, Wrap(v, oldCap)));
  }

  // ---------------------------------------------------------------- growing a ring

  function GrowWrites(c: Bit, cells: Cells, span: seq<nat>, e: Pos, h: Pos, lb: nat, n: nat): seq<Write> {
    Fill(c, span, e, Cap(h, e), Cap(h, e)) + Relocate(c, cells, span, e, Cap(h, e), 2 * Cap(h, e), lb, n)
  }

  /** Growing writes only into the chunks that are being returned. */
  lemma GrowWithin(c: Bit, cells: Cells, span: seq<nat>, e: Pos, h: Pos, lb: nat, n: nat, k: nat)
    requires |span| == 2 * h
    requires k <= |GrowWrites(c, cells, span, e, h, lb, n)|
    ensures WritesWithin(GrowWrites(c, cells, span, e, h, lb, n)[..k], set x | x in span[h..])
  {
    CapAdd(h, h, e);
    var fill := Fill(c, span, e, Cap(h, e), Cap(h, e));
    var rel := Relocate(c, cells, span, e, Cap(h, e), 2 * Cap(h, e), lb, n);
    FillShape(c, span, e, Cap(h, e), Cap(h, e));
    RelocateShape(c, cells, span, e, Cap(h, e), 2 * Cap(h, e), lb, n);
    var ws := fill + rel;
    forall i | 0 <= i < k && ws[i].Cell? ensures ws[i].at.0 in span[h..] {
      if i < |fill| {
        LocateInTail(span, e, h, Cap(h, e) + i);
      } else {
        assert Serves(rel[i - |fill|], span, e, Cap(h, e), 2 * Cap(h, e), lb, n);
        var v :| lb <= v < lb + n && Wrap(v, Cap(h, e)) != Wrap(v, 2 * Cap(h, e))
          && rel[i - |fill|].at == Locate(span, e, Wrap(v, 2 * Cap(h, e)));
        WrapDouble(v, Cap(h, e));
        LocateInTail(span, e, h, Wrap(v, 2 * Cap(h, e)));
      }
    }
  }

  lemma GrowReads(c: Bit, cells: Cells, span: seq<nat>, e: Pos, h: Pos, lb: nat, n: nat, v: nat)
    requires |span| == 2 * h && Distinct(span)
    requires n <= Cap(h, e) && lb <= v < lb + n
    ensures ReadRing(CellsEffect(cells, GrowWrites(c, cells, span, e, h, lb, n)), span, e, 2 * Cap(h, e), v)
            == ReadRing(cells, span, e, Cap(h, e), v)
  {
    CapAdd(h, h, e);
    var fill := Fill(c, span, e, Cap(h, e), Cap(h, e));
    var rel := Relocate(c, cells, span, e, Cap(h, e), 2 * Cap(h, e), lb, n);
    EffectAppend(Empty(), cells, fill, rel);
    var filled := CellsEffect(cells, fill);
    if Wrap(v, Cap(h, e)) != Wrap(v, 2 * Cap(h, e)) {
      RelocateReads(c, filled, cells, span, e, Cap(h, e), 2 * Cap(h, e), lb, n, v);
    } else {
      RelocateKeeps(c, filled, cells, span, e, Cap(h, e), 2 * Cap(h, e), lb, n, v, |rel|);
      assert rel[..|rel|] == rel;
      FillShape(c, span, e, Cap(h, e), Cap(h, e));
      forall i | 0 <= i < |fill| ensures fill[i].at != Locate(span, e, Wrap(v, Cap(h, e))) {
        LocateDiffer(span, e, Cap(h, e) + i, Wrap(v, Cap(h, e)));
      }
      Untouched(cells, fill, Locate(span, e, Wrap(v, Cap(h, e))));
    }
  }

  function Empty(): Metadata {
    var r := Ring(0, 0, 0, seq(SLOTS, _ => NULL_CHUNK), 0);
    Metadata(r, r, 0, false, NoOp, 0, 0, Consensus(0, 0, 0, 0, 0, 0))
  }

  // ---------------------------------------------------------------- shrinking a ring

  /** Relocating into the kept half never overwrites an entry that is still a source. */
  lemma ShrinkSources(c: Bit, cells: Cells, src: Cells, span: seq<nat>, e: Pos, n: Pos, lo: nat, w: nat, v: nat, k: nat)
    requires |span| == 2 * n && Distinct(span)
    requires w <= Cap(n, e) && lo <= v < lo + w
    requires k <= |Relocate(c, src, span, e, 2 * Cap(n, e), Cap(n, e), lo, w)|
    ensures ReadRing(CellsEffect(cells, Relocate(c, src, span, e, 2 * Cap(n, e), Cap(n, e), lo, w)[..k]), span, e,
                     2 * Cap(n, e), v)
            == ReadRing(cells, span, e, 2 * Cap(n, e), v)
  {
    CapAdd(n, n, e);
    WrapDouble(v, Cap(n, e));
    RelocateKeeps(c, cells, src, span, e, 2 * Cap(n, e), Cap(n, e), lo, w, v, k);
  }

  lemma ShrinkReads(c: Bit, cells: Cells, span: seq<nat>, e: Pos, n: Pos, lo: nat, w: nat, v: nat)
    requires |span| == 2 * n && Distinct(span)
    requires w <= Cap(n, e) && lo <= v < lo + w
    ensures ReadRing(CellsEffect(cells, Relocate(c, cells, span, e, 2 * Cap(n, e), Cap(n, e), lo, w)), span, e,
                     Cap(n, e), v)
            == ReadRing(cells, span, e, 2 * Cap(n, e), v)
  {
    CapAdd(n, n, e);
    var rel := Relocate(c, cells, span, e, 2 * Cap(n, e), Cap(n, e), lo, w);
    if Wrap(v, 2 * Cap(n, e)) != Wrap(v, Cap(n, e)) {
      RelocateReads(c, cells, cells, span, e, 2 * Cap(n, e), Cap(n, e), lo, w, v);
    } else {
      RelocateKeeps(c, cells, cells, span, e, 2 * Cap(n, e), Cap(n, e), lo, w, v, |rel|);
      assert rel[..|rel|] == rel;
    }
  }
}
