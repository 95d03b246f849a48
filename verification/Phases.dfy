/**
 The two phases of an operation: the metadata a copy holds before it and after it, and the
 proof that the body of the operation moves a copy from the first to the second and leaves
 a copy that is already in the second alone.
 */
module Phases {
  import opened Disk
  import opened Programs
  import opened Arithmetic
  import opened RingData

  predicate PowerOfTwo(n: nat) {
    n == 1 || (1 < n && n % 2 == 0 && PowerOfTwo(n / 2))
  }

  /** The list names each of the chunks `1 .. total` exactly once. */
  ghost predicate Permutation(ids: seq<nat>, total: nat) {
    |ids| == total && Distinct(ids) && forall x :: x in ids <==> 1 <= x <= total
  }

  predicate NullFrom(s: seq<nat>, k: nat) {
    forall i :: k <= i < |s| ==> s[i] == NULL_CHUNK
  }

  /** The window obligation of the ring: no two live versions share a slot. */
  predicate InWindow(r: Ring, e: Pos) {
    r.lowerBound <= r.nextVersion <= r.lowerBound + Cap(r.len, e) && r.nextVersion <= INVALID_BLOCK_NUM
  }

  /** Either the primary owns every chunk, or the two rings own half of them each. */
  ghost predicate WellFormed(m: Metadata, total: nat, e: Pos) {
    var p, s := m.primaryRing(), m.secondaryRing();
    && PowerOfTwo(total) && total <= SLOTS
    && p.len + s.len == total && (if m.active then p.len == s.len else s.len == 0)
    && NullFrom(p.slots, p.len) && NullFrom(s.slots, s.len)
    && Permutation(p.slots[..p.len] + s.slots[..s.len], total)
    && InWindow(p, e) && (m.active ==> InWindow(s, e))
  }

  /** What the public operation asserts before it stamps its intent. */
  ghost predicate Ready(op: OpKind, m: Metadata, total: nat, e: Pos) {
    && WellFormed(m, total, e)
    && match op
       case NoOp => false
       case Activate => !m.active && 2 <= total
       case Deactivate => m.active
       case Promote => m.active
  }

  function Nulls(n: nat): seq<nat> {
    seq(n, (_: nat) => NULL_CHUNK)
  }

  /** The list `s` with `t` written over it from index `i`. */
  function Splice(s: seq<nat>, i: nat, t: seq<nat>): (r: seq<nat>)
    requires i + |t| <= |s|
    ensures |r| == |s|
  {
    s[..i] + t + s[i + |t|..]
  }

  lemma SpliceMore(s: seq<nat>, i: nat, t: seq<nat>, x: nat)
    requires i + |t| < |s|
    ensures Splice(s, i, t)[i + |t| := x] == Splice(s, i, t + [x])
    ensures Splice(s, i, []) == s
  {
  }

  /** The header a complete operation leaves, given the header it started from. */
  function PostMeta(op: OpKind, m: Metadata, e: Pos, n: nat): Metadata {
    var p, s := m.primaryRing(), m.secondaryRing();
    match op
    case NoOp => m
    case Activate =>
      if 2 * n > SLOTS then m else
        m.withRing(m.primary, p.(lowerBound := RaisedLowerBound(p, Cap(n, e)), len := n,
                                 slots := Splice(p.slots, n, Nulls(n))))
        .withRing(1 - m.primary, s.(lowerBound := 0, nextVersion := 0, len := n,
                                    slots := Splice(s.slots, 0, p.slots[n..2 * n]))).(active := true)
    case Deactivate =>
      var h := p.len;
      if 2 * h > SLOTS then m else
        m.withRing(m.primary, p.(len := n, slots := Splice(p.slots, h, s.slots[..h])))
        .withRing(1 - m.primary, s.(len := 0, slots := Splice(s.slots, 0, Nulls(h)))).(active := false)
    case Promote => m.(primary := ToBit(n))
  }

  /** Only the intent and the history length may differ between two headers
      in the same phase. */
  function Norm(m: Metadata): Metadata {
    m.(kind := NoOp, param := 0, historyLength := 0)
  }

  /** The header `m` with the bookkeeping fields of `x`. */
  function Dressed(m: Metadata, x: Metadata): Metadata {
    m.(kind := x.kind, param := x.param, historyLength := x.historyLength)
  }

  lemma PhaseFacts(op: OpKind, m: Metadata, x: Metadata, total: nat, e: Pos)
    requires Ready(op, m, total, e)
    ensures Norm(x) == Norm(m) ==> Ready(op, x, total, e) && Target(op, x) == Target(op, m) && x == Dressed(m, x)
    ensures PostMeta(op, Dressed(m, x), e, Target(op, m)) == Dressed(PostMeta(op, m, e, Target(op, m)), x)
    ensures Norm(x) == Norm(PostMeta(op, m, e, Target(op, m))) ==>
              x == PostMeta(op, Dressed(m, x), e, Target(op, m))
    ensures Norm(m) != Norm(PostMeta(op, m, e, Target(op, m)))
    ensures 2 * Target(op, m) <= SLOTS || op == Deactivate
    ensures op == Activate ==> 2 * Target(op, m) == m.primaryRing().len == total
    ensures op == Deactivate ==> Target(op, m) == 2 * m.primaryRing().len == total && 0 < m.primaryRing().len
  {
    assert op == Activate ==> total % 2 == 0;
  }

  // ---------------------------------------------------------------- header effects

  lemma {:induction false} NoStores(m: Metadata, ws: seq<Write>)
    requires forall i :: 0 <= i < |ws| ==> ws[i].Cell?
    ensures MetaEffect(m, ws) == m
  {
    if ws != [] {
      NoStores(m, ws[..|ws| - 1]);
    }
  }

  /** The header with other chunk lists for ring `i` and its sibling. */
  function WithSlots(x: Metadata, i: Bit, si: SlotList, sj: SlotList): Metadata {
    x.withRing(i, x.ring(i).(slots := si)).withRing(1 - i, x.ring(1 - i).(slots := sj))
  }

  lemma PutSlots(x: Metadata, i: Bit, si: SlotList, sj: SlotList, k: nat, id: nat)
    requires k < SLOTS
    ensures Put(WithSlots(x, i, si, sj), ChunkSlot(i, k, id)) == WithSlots(x, i, si[k := id], sj)
    ensures Put(WithSlots(x, i, si, sj), ChunkSlot(1 - i, k, id)) == WithSlots(x, i, si, sj[k := id])
    ensures WithSlots(x, i, x.ring(i).slots, x.ring(1 - i).slots) == x
  {
  }

  /** Moving `n` chunks into empty slots. */
  lemma {:induction false} MoveFresh(c: Bit, x: Metadata, from: Bit, fromBase: nat, toBase: nat, n: nat)
    requires fromBase + n <= SLOTS && toBase + n <= SLOTS
    requires NullFrom(x.ring(1 - from).slots, toBase)
    ensures var f, t := x.ring(from).slots, x.ring(1 - from).slots;
            MetaEffect(x, MoveSlots(c, x, from, fromBase, 1 - from, toBase, n)) ==
            WithSlots(x, from, Splice(f, fromBase, Nulls(n)), Splice(t, toBase, f[fromBase..fromBase + n]))
  {
    var f, t := x.ring(from).slots, x.ring(1 - from).slots;
    if n == 0 {
      assert f[fromBase..fromBase] == [] && Nulls(0) == [];
      assert Splice(f, fromBase, []) == f && Splice(t, toBase, []) == t;
      PutSlots(x, from, f, t, 0, 0);
    } else {
      MoveFresh(c, x, from, fromBase, toBase, n - 1);
      MoveOne(c, x, from, fromBase, toBase, n - 1);
    }
  }

  lemma MoveStores(c: Bit, x: Metadata, from: Bit, f: SlotList, t: SlotList, i: nat, j: nat, id: nat)
    requires i < SLOTS && j < SLOTS
    ensures MetaEffect(WithSlots(x, from, f, t),
                       [Store(c, ChunkSlot(1 - from, j, id)), Store(c, ChunkSlot(from, i, NULL_CHUNK))])
            == WithSlots(x, from, f[i := NULL_CHUNK], t[j := id])
  {
    Steps2(WithSlots(x, from, f, t), [Store(c, ChunkSlot(1 - from, j, id)), Store(c, ChunkSlot(from, i, NULL_CHUNK))]);
    PutSlots(x, from, f, t, j, id);
    PutSlots(x, from, f, t[j := id], i, NULL_CHUNK);
  }

  /** One more chunk id spliced over, on the lists alone. */
  lemma SpliceStep(f: SlotList, t: SlotList, i: nat, j: nat, n: nat)
    requires i + n < SLOTS && j + n < SLOTS
    ensures Splice(f, i, Nulls(n))[i + n := NULL_CHUNK] == Splice(f, i, Nulls(n + 1))
    ensures Splice(t, j, f[i..i + n])[j + n := f[i + n]] == Splice(t, j, f[i..i + n + 1])
  {
    SpliceMore(f, i, Nulls(n), NULL_CHUNK);
    assert Nulls(n + 1) == Nulls(n) + [NULL_CHUNK];
    SpliceMore(t, j, f[i..i + n], f[i + n]);
    assert f[i..i + n + 1] == f[i..i + n] + [f[i + n]];
  }

  lemma MoveOne(c: Bit, x: Metadata, from: Bit, fromBase: nat, toBase: nat, n: nat)
    requires fromBase + n < SLOTS && toBase + n < SLOTS
    requires x.ring(1 - from).slots[toBase + n] == NULL_CHUNK
    requires var f, t := x.ring(from).slots, x.ring(1 - from).slots;
             MetaEffect(x, MoveSlots(c, x, from, fromBase, 1 - from, toBase, n)) ==
             WithSlots(x, from, Splice(f, fromBase, Nulls(n)), Splice(t, toBase, f[fromBase..fromBase + n]))
    ensures var f, t := x.ring(from).slots, x.ring(1 - from).slots;
            MetaEffect(x, MoveSlots(c, x, from, fromBase, 1 - from, toBase, n + 1)) ==
            WithSlots(x, from, Splice(f, fromBase, Nulls(n + 1)), Splice(t, toBase, f[fromBase..fromBase + n + 1]))
  {
    var f, t := x.ring(from).slots, x.ring(1 - from).slots;
    var pre := MoveSlots(c, x, from, fromBase, 1 - from, toBase, n);
    var id := f[fromBase + n];
    var last := [Store(c, ChunkSlot(1 - from, toBase + n, id)), Store(c, ChunkSlot(from, fromBase + n, NULL_CHUNK))];
    EffectAppend(x, map[], pre, last);
    MoveStores(c, x, from, Splice(f, fromBase, Nulls(n)), Splice(t, toBase, f[fromBase..fromBase + n]), fromBase + n,
               toBase + n, id);
    SpliceStep(f, t, fromBase, toBase, n);
  }

  /** Nothing is moved when every destination slot is taken. */
  lemma {:induction false} MoveDone(c: Bit, x: Metadata, from: Bit, fromBase: nat, to: Bit, toBase: nat, n: nat)
    requires forall k :: toBase <= k < toBase + n ==> SlotAt(x.ring(to), k) != NULL_CHUNK
    ensures MoveSlots(c, x, from, fromBase, to, toBase, n) == []
  {
    if n != 0 {
      MoveDone(c, x, from, fromBase, to, toBase, n - 1);
    }
  }

  lemma Steps5(m: Metadata, ws: seq<Write>)
    requires |ws| == 5 && ws[0].Store? && ws[1].Store? && ws[2].Store? && ws[3].Store? && ws[4].Store?
    ensures MetaEffect(m, ws) == Put(Put(Put(Put(Put(m, ws[0].f), ws[1].f), ws[2].f), ws[3].f), ws[4].f)
  {
    assert ws == ws[..3] + ws[3..];
    EffectAppend(m, map[], ws[..3], ws[3..]);
    Steps3(m, ws[..3]);
    Steps2(MetaEffect(m, ws[..3]), ws[3..]);
  }

  lemma CellsOnly(c: Bit, span: seq<nat>, e: Pos, lo: nat, n: nat, cells: Cells, oldCap: Pos, newCap: Pos)
    ensures forall w :: w in Fill(c, span, e, lo, n) ==> w.Cell?
    ensures forall w :: w in Relocate(c, cells, span, e, oldCap, newCap, lo, n) ==> w.Cell?
  {
    FillShape(c, span, e, lo, n);
    RelocateShape(c, cells, span, e, oldCap, newCap, lo, n);
  }

  function FrontResult(x: Metadata, e: Pos, n: nat): Metadata
    requires 2 * n <= SLOTS
  {
    var p, s := x.primaryRing(), x.secondaryRing();
    WithSlots(Put(x, LowerBound(x.primary, RaisedLowerBound(p, Cap(n, e)))), x.primary,
              Splice(p.slots, n, Nulls(n)), Splice(s.slots, 0, p.slots[n..2 * n]))
  }

  lemma BumpMeta(c: Bit, x: Metadata, pi: Bit, e: Pos, n: Pos)
    ensures var newLb := RaisedLowerBound(x.ring(pi), Cap(n, e));
            && MetaEffect(x, ActivateBump(c, x, pi, e, n)) == Put(x, LowerBound(pi, newLb))
            && (forall i: Bit :: Put(x, LowerBound(pi, newLb)).ring(i).slots == x.ring(i).slots)
            && Put(x, LowerBound(pi, newLb)).primary == x.primary
  {
    var ws := [Store(c, LowerBound(pi, RaisedLowerBound(x.ring(pi), Cap(n, e))))];
    assert ws[..0] == [];
  }

  lemma CopiesCellsOnly(c: Bit, x: Metadata, mount: Metadata, pi: Bit, cells: Cells, e: Pos, n: Pos)
    ensures forall w :: w in ActivateCopies(c, x, mount, pi, cells, e, n) ==> w.Cell?
  {
    var p := x.ring(pi);
    var newLb := RaisedLowerBound(p, Cap(n, e));
    CellsOnly(c, ShrinkSpan(x, mount, pi, n), e, newLb, Window(newLb, p.nextVersion), cells, 2 * Cap(n, e), Cap(n, e));
  }

  lemma FrontMoves(c: Bit, x: Metadata, x1: Metadata, e: Pos, n: Pos)
    requires 2 * n <= SLOTS && NullFrom(x.secondaryRing().slots, 0)
    requires x1 == Put(x, LowerBound(x.primary, RaisedLowerBound(x.primaryRing(), Cap(n, e))))
    ensures MetaEffect(x1, MoveSlots(c, x, x.primary, n, 1 - x.primary, 0, n)) == FrontResult(x, e, n)
  {
    var pi := x.primary;
    BumpSlots(x, pi, RaisedLowerBound(x.primaryRing(), Cap(n, e)));
    MoveSame(c, x, x1, pi, n, 1 - pi, 0, n);
    MoveFresh(c, x1, pi, n, 0, n);
  }

  lemma BumpSlots(x: Metadata, i: Bit, lb: nat)
    ensures var x1 := Put(x, LowerBound(i, lb));
            x1.primary == x.primary && forall j: Bit :: x1.ring(j).slots == x.ring(j).slots
  {
  }

  lemma FrontMeta(c: Bit, x: Metadata, mount: Metadata, cells: Cells, e: Pos, n: Pos)
    requires 2 * n <= SLOTS && NullFrom(x.secondaryRing().slots, 0)
    ensures MetaEffect(x, ActivateFront(c, x, mount, x.primary, cells, e, n)) == FrontResult(x, e, n)
  {
    var pi := x.primary;
    var bump := ActivateBump(c, x, pi, e, n);
    var copies := ActivateCopies(c, x, mount, pi, cells, e, n);
    BumpMeta(c, x, pi, e, n);
    var x1 := Put(x, LowerBound(pi, RaisedLowerBound(x.ring(pi), Cap(n, e))));
    CopiesCellsOnly(c, x, mount, pi, cells, e, n);
    NoStores(x1, copies);
    ThreeParts(x, bump, copies, MoveSlots(c, x, pi, n, 1 - pi, 0, n));
    FrontMoves(c, x, x1, e, n);
  }

  lemma CommitMeta(c: Bit, x: Metadata, e: Pos, n: nat)
    requires 2 * n <= SLOTS
    ensures MetaEffect(FrontResult(x, e, n), ActivateCommit(c, x.primary, n)) == PostMeta(Activate, x, e, n)
  {
    Steps5(FrontResult(x, e, n), ActivateCommit(c, x.primary, n));
  }

  /** Blanking touches no header; the commit follows. */
  lemma BlankMeta(c: Bit, x: Metadata, y: Metadata, pi: Bit, cells: Cells, e: Pos, n: Pos)
    ensures MetaEffect(y, ActivateBlank(c, x, pi, e, n) + ActivateCommit(c, pi, n))
            == MetaEffect(y, ActivateCommit(c, pi, n))
  {
    var blank := ActivateBlank(c, x, pi, e, n);
    CellsOnly(c, MovedIds(x, pi, n, 1 - pi, 0, n), e, 0, Cap(n, e), cells, 1, 1);
    NoStores(y, blank);
    EffectAppend(y, cells, blank, ActivateCommit(c, pi, n));
  }

  lemma ActivateMeta(c: Bit, x: Metadata, mount: Metadata, cells: Cells, e: Pos, n: Pos)
    requires 2 * n <= SLOTS && NullFrom(x.secondaryRing().slots, 0)
    ensures MetaEffect(x, ActivateInner(c, x, mount, x.primary, cells, e, n)) == PostMeta(Activate, x, e, n)
  {
    var pi := x.primary;
    var front := ActivateFront(c, x, mount, pi, cells, e, n);
    var rest := ActivateBlank(c, x, pi, e, n) + ActivateCommit(c, pi, n);
    assert ActivateInner(c, x, mount, pi, cells, e, n) == front + rest;
    EffectAppend(x, cells, front, rest);
    FrontMeta(c, x, mount, cells, e, n);
    BlankMeta(c, x, FrontResult(x, e, n), pi, cells, e, n);
    CommitMeta(c, x, e, n);
  }

  lemma ActivatePre(c: Bit, x: Metadata, mount: Metadata, cells: Cells, e: Pos, total: nat)
    requires Ready(Activate, x, total, e)
    ensures var n := Target(Activate, x);
            n > 0 && MetaEffect(x, ActivateInner(c, x, mount, x.primary, cells, e, n)) == PostMeta(Activate, x, e, n)
  {
    PhaseFacts(Activate, x, x, total, e);
    ActivateMeta(c, x, mount, cells, e, Target(Activate, x));
  }

  /** The move reads only the chunk lists. */
  lemma {:induction false} MoveSame(c: Bit, x: Metadata, y: Metadata, from: Bit, fromBase: nat, to: Bit, toBase: nat,
                                    n: nat)
    requires forall i: Bit :: x.ring(i).slots == y.ring(i).slots
    ensures MoveSlots(c, x, from, fromBase, to, toBase, n) == MoveSlots(c, y, from, fromBase, to, toBase, n)
  {
    if n != 0 {
      MoveSame(c, x, y, from, fromBase, to, toBase, n - 1);
    }
  }

  /** So does what is mapped. */
  lemma MovedSame(x: Metadata, y: Metadata, from: Bit, fromBase: nat, to: Bit, toBase: nat, n: nat)
    requires forall i: Bit :: x.ring(i).slots == y.ring(i).slots
    ensures MovedIds(x, from, fromBase, to, toBase, n) == MovedIds(y, from, fromBase, to, toBase, n)
  {
  }

  /** In the second phase the secondary already lists its chunks, so nothing is left to do
      before the blanking. */
  lemma ActivateAgain(c: Bit, y: Metadata, mount: Metadata, cells: Cells, e: Pos, total: nat)
    requires Ready(Activate, y, total, e)
    ensures var n := Target(Activate, y);
            var x := PostMeta(Activate, y, e, n);
            n > 0 && ActivateFront(c, x, mount, y.primary, cells, e, n) == []
            && MovedIds(x, y.primary, n, 1 - y.primary, 0, n) == y.primaryRing().slots[n..2 * n]
  {
    PhaseFacts(Activate, y, y, total, e);
    var n, pi := Target(Activate, y), y.primary;
    var x := PostMeta(Activate, y, e, n);
    var s := x.ring(1 - pi);
    var ids := y.primaryRing().slots[n..2 * n];
    forall k | 0 <= k < n ensures SlotAt(s, k) == ids[k] != NULL_CHUNK {
      UsedSlot(y, total, e, n + k);
    }
    MoveDone(c, x, pi, n, 1 - pi, 0, n);
  }

  lemma ActivatePost(c: Bit, y: Metadata, mount: Metadata, cells: Cells, e: Pos, total: nat)
    requires Ready(Activate, y, total, e)
    ensures var n := Target(Activate, y);
            var x := PostMeta(Activate, y, e, n);
            n > 0 && MetaEffect(x, ActivateInner(c, x, mount, y.primary, cells, e, n)) == x
  {
    PhaseFacts(Activate, y, y, total, e);
    var n, pi := Target(Activate, y), y.primary;
    var x := PostMeta(Activate, y, e, n);
    ActivateAgain(c, y, mount, cells, e, total);
    var rest := ActivateBlank(c, x, pi, e, n) + ActivateCommit(c, pi, n);
    assert ActivateInner(c, x, mount, pi, cells, e, n) == rest;
    BlankMeta(c, x, x, pi, cells, e, n);
    CommitAgain(c, y, e, n);
  }

  lemma CommitAgain(c: Bit, y: Metadata, e: Pos, n: nat)
    requires 2 * n <= SLOTS
    ensures var x := PostMeta(Activate, y, e, n);
            MetaEffect(x, ActivateCommit(c, y.primary, n)) == x
  {
    Steps5(PostMeta(Activate, y, e, n), ActivateCommit(c, y.primary, n));
  }

  lemma UsedSlot(m: Metadata, total: nat, e: Pos, k: nat)
    requires WellFormed(m, total, e)
    ensures k < m.primaryRing().len ==> 1 <= m.primaryRing().slots[k] <= total && m.primaryRing().slots[k] != NULL_CHUNK
    ensures k < m.secondaryRing().len ==>
            1 <= m.secondaryRing().slots[k] <= total && m.secondaryRing().slots[k] != NULL_CHUNK
  {
    var p, s := m.primaryRing(), m.secondaryRing();
    var ids := p.slots[..p.len] + s.slots[..s.len];
    if k < p.len {
      assert ids[k] == p.slots[k] && ids[k] in ids;
    }
    if k < s.len {
      assert ids[p.len + k] == s.slots[k] && ids[p.len + k] in ids;
    }
  }

  lemma DeactivatePre(c: Bit, x: Metadata, mount: Metadata, cells: Cells, e: Pos, total: nat)
    requires Ready(Deactivate, x, total, e)
    ensures var n := Target(Deactivate, x);
            MetaEffect(x, DeactivateInner(c, x, mount, x.primary, cells, e, n)) == PostMeta(Deactivate, x, e, n)
  {
    PhaseFacts(Deactivate, x, x, total, e);
    var n, pi := Target(Deactivate, x), x.primary;
    var h := x.primaryRing().len;
    var moves := DeactivateMoves(c, x, pi, n);
    MoveFresh(c, x, 1 - pi, 0, h, h);
    var x1 := MetaEffect(x, moves);
    var data := DeactivateData(c, x, mount, pi, cells, e, n);
    DataCellsOnly(c, x, mount, pi, cells, e, n);
    NoStores(x1, data);
    EffectAppend(x, cells, moves, data);
    EffectAppend(x, cells, moves + data, DeactivateCommit(c, pi, n));
    GrowCommit(c, x, e, h);
  }

  lemma DataCellsOnly(c: Bit, x: Metadata, mount: Metadata, pi: Bit, cells: Cells, e: Pos, n: nat)
    ensures forall w :: w in DeactivateData(c, x, mount, pi, cells, e, n) ==> w.Cell?
  {
    var p := x.ring(pi);
    if 0 < p.len < n {
      var span := GrowSpan(x, mount, pi, n);
      CellsOnly(c, span, e, Cap(p.len, e), Cap(n - p.len, e), cells, 1, 1);
      CellsOnly(c, span, e, p.lowerBound, Window(p.lowerBound, p.nextVersion), cells, Cap(p.len, e), Cap(n, e));
    }
  }

  lemma GrowCommit(c: Bit, x: Metadata, e: Pos, h: nat)
    requires 2 * h <= SLOTS && h == x.primaryRing().len
    ensures var p, s := x.primaryRing().slots, x.secondaryRing().slots;
            MetaEffect(WithSlots(x, 1 - x.primary, Splice(s, 0, Nulls(h)), Splice(p, h, s[0..0 + h])),
                       DeactivateCommit(c, x.primary, 2 * h)) == PostMeta(Deactivate, x, e, 2 * h)
  {
    var p, s := x.primaryRing().slots, x.secondaryRing().slots;
    assert s[0..0 + h] == s[..h];
    Steps3(WithSlots(x, 1 - x.primary, Splice(s, 0, Nulls(h)), Splice(p, h, s[..h])),
           DeactivateCommit(c, x.primary, 2 * h));
  }

  lemma DeactivatePost(c: Bit, y: Metadata, mount: Metadata, cells: Cells, e: Pos, total: nat)
    requires Ready(Deactivate, y, total, e)
    ensures var n := Target(Deactivate, y);
            var x := PostMeta(Deactivate, y, e, n);
            && DeactivateInner(c, x, mount, y.primary, cells, e, n) == DeactivateCommit(c, y.primary, n)
            && MetaEffect(x, DeactivateInner(c, x, mount, y.primary, cells, e, n)) == x
  {
    PhaseFacts(Deactivate, y, y, total, e);
    var n, pi := Target(Deactivate, y), y.primary;
    var x := PostMeta(Deactivate, y, e, n);
    assert DeactivateInner(c, x, mount, pi, cells, e, n) == DeactivateCommit(c, pi, n);
    Steps3(x, DeactivateCommit(c, pi, n));
  }

  /** The body takes a copy from the first phase to the second ... */
  lemma InnerPre(op: OpKind, c: Bit, x: Metadata, mount: Metadata, cells: Cells, e: Pos, total: nat)
    requires Ready(op, x, total, e)
    ensures MetaEffect(x, Inner(op, c, x, mount, x.primary, cells, e, Target(op, x)))
            == PostMeta(op, x, e, Target(op, x))
  {
    match op
    case Activate => ActivatePre(c, x, mount, cells, e, total);
    case Deactivate => DeactivatePre(c, x, mount, cells, e, total);
    case Promote =>
      var ws := Inner(op, c, x, mount, x.primary, cells, e, Target(op, x));
      assert ws[..0] == [];
  }

  /** ... and leaves the header of a copy in the second phase alone. */
  lemma InnerPost(op: OpKind, c: Bit, y: Metadata, mount: Metadata, pi: Bit, cells: Cells, e: Pos, total: nat)
    requires Ready(op, y, total, e)
    requires op == Promote || pi == y.primary
    ensures var x := PostMeta(op, y, e, Target(op, y));
            MetaEffect(x, Inner(op, c, x, mount, pi, cells, e, Target(op, y))) == x
  {
    match op
    case Activate => ActivatePost(c, y, mount, cells, e, total);
    case Deactivate => DeactivatePost(c, y, mount, cells, e, total);
    case Promote =>
      var ws := Inner(op, c, PostMeta(op, y, e, Target(op, y)), mount, pi, cells, e, Target(op, y));
      assert ws[..0] == [];
  }
}
