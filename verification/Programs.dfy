/**
 The metadata operations as the sequences of stores they make: activate, deactivate and
 promote (intent stamp, body on both copies, clear), and recovery on open (dirty restore,
 then replay of a stamped operation).
 */
module Programs {
  import opened Disk

  function Max(a: nat, b: nat): nat {
    if a < b then b else a
  }

  function Take(s: seq<nat>, n: nat): seq<nat> {
    if n <= |s| then s[..n] else s
  }

  function SlotAt(r: Ring, k: nat): nat {
    if k < SLOTS then r.slots[k] else NULL_CHUNK
  }

  // ---------------------------------------------------------------- ring data

  /** `memset` with 0xff of `n` positions from `lo`. */
  function Fill(c: Bit, span: seq<nat>, entries: Pos, lo: nat, n: nat): seq<Write> {
    if n == 0 then []
    else Fill(c, span, entries, lo, n - 1) + [Cell(c, Locate(span, entries, lo + n - 1), INVALID_OFFSET)]
  }

  /** Copy the entries of versions `lo .. lo + n` from their position under `oldCap` to their
      position under `newCap`. */
  function Relocate(c: Bit, cells: Cells, span: seq<nat>, entries: Pos, oldCap: Pos, newCap: Pos,
                    lo: nat, n: nat): seq<Write>
  {
    if n == 0 then []
    else
      var v := lo + n - 1;
      Relocate(c, cells, span, entries, oldCap, newCap, lo, n - 1) +
      if Wrap(v, oldCap) == Wrap(v, newCap) then []
      else [Cell(c, Locate(span, entries, Wrap(v, newCap)), At(cells, Locate(span, entries, Wrap(v, oldCap))))]
  }

  // ---------------------------------------------------------------- chunk lists

  /** Chunks that a move puts at `toBase ..` of ring `to`: already there, or still in `from`. */
  function MovedIds(x: Metadata, from: Bit, fromBase: nat, to: Bit, toBase: nat, n: nat): seq<nat> {
    seq(n, (k: nat) => MovedId(x, from, fromBase, to, toBase, k))
  }

  function MovedId(x: Metadata, from: Bit, fromBase: nat, to: Bit, toBase: nat, k: nat): nat {
    if SlotAt(x.ring(to), toBase + k) != NULL_CHUNK
    then SlotAt(x.ring(to), toBase + k) else SlotAt(x.ring(from), fromBase + k)
  }

  /** Hand `n` chunk ids over, skipping destination slots that already hold one. */
  function MoveSlots(c: Bit, x: Metadata, from: Bit, fromBase: nat, to: Bit, toBase: nat, n: nat): seq<Write> {
    if n == 0 then []
    else
      MoveSlots(c, x, from, fromBase, to, toBase, n - 1) +
      if SlotAt(x.ring(to), toBase + n - 1) != NULL_CHUNK then []
      else [Store(c, ChunkSlot(to, toBase + n - 1, SlotAt(x.ring(from), fromBase + n - 1))),
            Store(c, ChunkSlot(from, fromBase + n - 1, NULL_CHUNK))]
  }

  // ---------------------------------------------------------------- bodies

  /** Versions below this one do not fit into a primary ring of `newCap` entries. */
  function RaisedLowerBound(p: Ring, newCap: nat): nat {
    Max(p.lowerBound, if p.nextVersion >= newCap then p.nextVersion - newCap else 0)
  }

  function Window(lo: nat, hi: nat): nat {
    if lo < hi then hi - lo else 0
  }

  /** Primary positions as mapped during activation: the kept half from the mount, the
      leaving half from whichever list holds the chunk. */
  function ShrinkSpan(x: Metadata, mount: Metadata, pi: Bit, n: nat): seq<nat> {
    Take(mount.ring(pi).slots, n) + MovedIds(x, 1 - pi, 0, pi, n, n)
  }

  function ActivateCopies(c: Bit, x: Metadata, mount: Metadata, pi: Bit, cells: Cells, entries: Pos,
                          n: Pos): seq<Write> {
    var p := x.ring(pi);
    var newLb := RaisedLowerBound(p, Cap(n, entries));
    if p.len != n
    then Relocate(c, cells, ShrinkSpan(x, mount, pi, n), entries, 2 * Cap(n, entries), Cap(n, entries),
                  newLb, Window(newLb, p.nextVersion))
    else []
  }

  /** Raise the primary's lower bound over the versions that no longer fit. */
  function ActivateBump(c: Bit, x: Metadata, pi: Bit, entries: Pos, n: Pos): seq<Write> {
    var newLb := RaisedLowerBound(x.ring(pi), Cap(n, entries));
    if newLb > x.ring(pi).lowerBound then [Store(c, LowerBound(pi, newLb))] else []
  }

  /** Everything activation does to a copy before it blanks the secondary ring. */
  function ActivateFront(c: Bit, x: Metadata, mount: Metadata, pi: Bit, cells: Cells, entries: Pos,
                         n: Pos): seq<Write> {
    ActivateBump(c, x, pi, entries, n) +
    ActivateCopies(c, x, mount, pi, cells, entries, n) +
    MoveSlots(c, x, pi, n, 1 - pi, 0, n)
  }

  function ActivateBlank(c: Bit, x: Metadata, pi: Bit, entries: Pos, n: Pos): seq<Write> {
    Fill(c, MovedIds(x, pi, n, 1 - pi, 0, n), entries, 0, Cap(n, entries))
  }

  function ActivateCommit(c: Bit, pi: Bit, n: nat): seq<Write> {
    [Store(c, LowerBound(1 - pi, 0)), Store(c, NextVersion(1 - pi, 0)),
     Store(c, ChunksLen(pi, n)), Store(c, ChunksLen(1 - pi, n)), Store(c, ActiveFlag(true))]
  }

  function ActivateInner(c: Bit, x: Metadata, mount: Metadata, pi: Bit, cells: Cells, entries: Pos,
                         n: Pos): seq<Write> {
    ActivateFront(c, x, mount, pi, cells, entries, n) + ActivateBlank(c, x, pi, entries, n) + ActivateCommit(c, pi, n)
  }

  function GrowSpan(x: Metadata, mount: Metadata, pi: Bit, n: nat): seq<nat> {
    var h := x.ring(pi).len;
    Take(mount.ring(pi).slots, h) + MovedIds(x, 1 - pi, 0, pi, h, Window(h, n))
  }

  function DeactivateMoves(c: Bit, x: Metadata, pi: Bit, n: nat): seq<Write> {
    MoveSlots(c, x, 1 - pi, 0, pi, x.ring(pi).len, Window(x.ring(pi).len, n))
  }

  function DeactivateData(c: Bit, x: Metadata, mount: Metadata, pi: Bit, cells: Cells, entries: Pos,
                          n: nat): seq<Write> {
    var p := x.ring(pi);
    if 0 < p.len < n then
      Fill(c, GrowSpan(x, mount, pi, n), entries, Cap(p.len, entries), Cap(n - p.len, entries)) +
      Relocate(c, cells, GrowSpan(x, mount, pi, n), entries, Cap(p.len, entries), Cap(n, entries),
               p.lowerBound, Window(p.lowerBound, p.nextVersion))
    else []
  }

  function DeactivateCommit(c: Bit, pi: Bit, n: nat): seq<Write> {
    [Store(c, ChunksLen(pi, n)), Store(c, ChunksLen(1 - pi, 0)), Store(c, ActiveFlag(false))]
  }

  function DeactivateInner(c: Bit, x: Metadata, mount: Metadata, pi: Bit, cells: Cells, entries: Pos,
                           n: nat): seq<Write> {
    DeactivateMoves(c, x, pi, n) + DeactivateData(c, x, mount, pi, cells, entries, n) + DeactivateCommit(c, pi, n)
  }

  function ToBit(n: nat): Bit {
    if n == 0 then 0 else 1
  }

  /** The stores one copy receives inside its dirty scope. */
  function Inner(op: OpKind, c: Bit, x: Metadata, mount: Metadata, pi: Bit, cells: Cells, entries: Pos,
                 n: nat): seq<Write> {
    match op
    case NoOp => []
    case Activate => if n == 0 then [] else ActivateInner(c, x, mount, pi, cells, entries, n)
    case Deactivate => DeactivateInner(c, x, mount, pi, cells, entries, n)
    case Promote => [Store(c, PrimaryIdx(ToBit(n)))]
  }

  function BodyScope(op: OpKind, d: Disk, mount: Metadata, c: Bit, n: nat): seq<Write> {
    Scope(c, Inner(op, c, d.meta(c), mount, mount.primary, d.cells(c), d.entries, n))
  }

  /** Activation caps the history length once both copies are split. */
  function HistoryWrites(op: OpKind, d: Disk, n: nat): seq<Write> {
    var cap := Cap(n, d.entries);
    if op == Activate && d.m0.historyLength > cap then
      Scope(0, [Store(0, HistoryLength(Max(cap, MIN_HISTORY_LENGTH)))]) +
      Scope(1, [Store(1, HistoryLength(Max(cap, MIN_HISTORY_LENGTH)))])
    else []
  }

  /** The role index and the mapping are read once, from copy 0. */
  function Body(op: OpKind, d: Disk, n: nat): seq<Write> {
    BodyScope(op, d, d.m0, 0, n) + BodyScope(op, d, d.m0, 1, n) + HistoryWrites(op, d, n)
  }

  function PendingScope(c: Bit, op: OpKind, n: nat): seq<Write> {
    Scope(c, [Store(c, PendingKind(op)), Store(c, PendingParam(n))])
  }

  function Stamp(op: OpKind, n: nat): seq<Write> {
    PendingScope(0, op, n) + PendingScope(1, op, n)
  }

  function Clear(): seq<Write> {
    PendingScope(0, NoOp, 0) + PendingScope(1, NoOp, 0)
  }

  /** The parameter an operation records in its intent: the primary's target chunk count,
      or the absolute target ring for promote. */
  function Target(op: OpKind, m: Metadata): nat {
    match op
    case NoOp => 0
    case Activate => m.primaryRing().len / 2
    case Deactivate => m.primaryRing().len + m.secondaryRing().len
    case Promote => 1 - m.primary
  }

  function Operation(op: OpKind, d: Disk): seq<Write> {
    var n := Target(op, d.m0);
    Stamp(op, n) + Body(op, Run(d, Stamp(op, n)), n) + Clear()
  }

  function Complete(op: OpKind, d: Disk): Disk {
    Run(d, Operation(op, d))
  }

  // ---------------------------------------------------------------- recovery

  function SlotStores(c: Bit, r: Bit, s: SlotList, n: nat): seq<Write>
    requires n <= SLOTS
  {
    if n == 0 then [] else SlotStores(c, r, s, n - 1) + [Store(c, ChunkSlot(r, n - 1, s[n - 1]))]
  }

  /** A ring header as `db_copy` moves it: the next version is held at zero meanwhile. */
  function RingStores(c: Bit, i: Bit, r: Ring): seq<Write> {
    [Store(c, LowerBound(i, r.lowerBound)), Store(c, NextVersion(i, 0)), Store(c, ChunksLen(i, r.len))] +
    SlotStores(c, i, r.slots, SLOTS) +
    [Store(c, AutoExpire(i, r.autoExpire))]
  }

  function MarkerStores(c: Bit, s: Metadata): seq<Write> {
    [Store(c, HistoryLength(s.historyLength)),
     Store(c, FinalizedVersion(s.consensus.finalizedVersion)), Store(c, VerifiedVersion(s.consensus.verifiedVersion))]
  }

  function VersionStores(c: Bit, s: Metadata): seq<Write> {
    [Store(c, VotedVersion(s.consensus.votedVersion)), Store(c, ProposedVersion(s.consensus.proposedVersion))]
  }

  function BlockStores(c: Bit, s: Metadata): seq<Write> {
    [Store(c, VotedBlock(s.consensus.votedBlock)), Store(c, ProposedBlock(s.consensus.proposedBlock))]
  }

  function MiddleStores(c: Bit, s: Metadata): seq<Write> {
    MarkerStores(c, s) + VersionStores(c, s) + BlockStores(c, s)
  }

  function LastStores(c: Bit, s: Metadata): seq<Write> {
    [Store(c, PrimaryIdx(s.primary)), Store(c, ActiveFlag(s.active)),
     Store(c, PendingKind(s.kind)), Store(c, PendingParam(s.param)),
     Store(c, NextVersion(0, s.a.nextVersion)), Store(c, NextVersion(1, s.b.nextVersion))]
  }

  function CopyFront(c: Bit, s: Metadata): seq<Write> {
    [Store(c, NextVersion(0, 0)), Store(c, NextVersion(1, 0))] + RingStores(c, 0, s.a) + MiddleStores(c, s)
  }

  function CopyInner(c: Bit, s: Metadata): seq<Write> {
    CopyFront(c, s) + RingStores(c, 1, s.b) + LastStores(c, s)
  }

  /** Dirty recovery: a dirty copy is overwritten with the other one, field by field. */
  function Restore(d: Disk): seq<Write> {
    if d.dirty0 then Scope(0, CopyInner(0, d.m1))
    else if d.dirty1 then Scope(1, CopyInner(1, d.m0))
    else []
  }

  /** Replay runs when either copy still carries an intent. */
  function Replay(d: Disk): seq<Write> {
    if d.m0.kind == NoOp && d.m1.kind == NoOp then []
    else
      var (op, n) := if d.m0.kind != NoOp then (d.m0.kind, d.m0.param) else (d.m1.kind, d.m1.param);
      Body(op, d, n) + Clear()
  }

  function Recovery(d: Disk): seq<Write> {
    Restore(d) + Replay(Run(d, Restore(d)))
  }

  function Recovered(d: Disk): Disk {
    Run(d, Recovery(d))
  }

  /** The disk after opening it once per element of `ks`, each open dying after that many
      writes of its recovery. */
  function AfterCrashes(d: Disk, ks: seq<nat>): Disk {
    if ks == [] then d
    else
      var e := AfterCrashes(d, ks[..|ks| - 1]);
      Crash(e, Recovery(e), ks[|ks| - 1])
  }

  // ---------------------------------------------------------------- shape of the writes

  lemma {:induction false} FillInside(c: Bit, span: seq<nat>, entries: Pos, lo: nat, n: nat)
    ensures Inside(c, Fill(c, span, entries, lo, n))
    ensures |Fill(c, span, entries, lo, n)| == n
  {
    if n != 0 {
      FillInside(c, span, entries, lo, n - 1);
    }
  }

  lemma {:induction false} RelocateInside(c: Bit, cells: Cells, span: seq<nat>, entries: Pos, oldCap: Pos, newCap: Pos,
                                          lo: nat, n: nat)
    ensures Inside(c, Relocate(c, cells, span, entries, oldCap, newCap, lo, n))
  {
    if n != 0 {
      RelocateInside(c, cells, span, entries, oldCap, newCap, lo, n - 1);
    }
  }

  lemma {:induction false} MoveSlotsInside(c: Bit, x: Metadata, from: Bit, fromBase: nat, to: Bit, toBase: nat, n: nat)
    ensures Inside(c, MoveSlots(c, x, from, fromBase, to, toBase, n))
  {
    if n != 0 {
      MoveSlotsInside(c, x, from, fromBase, to, toBase, n - 1);
    }
  }

  lemma InsideAppend(c: Bit, xs: seq<Write>, ys: seq<Write>)
    requires Inside(c, xs) && Inside(c, ys)
    ensures Inside(c, xs + ys)
  {
  }

  lemma ActivateInside(c: Bit, x: Metadata, mount: Metadata, pi: Bit, cells: Cells, entries: Pos, n: Pos)
    ensures Inside(c, ActivateFront(c, x, mount, pi, cells, entries, n))
    ensures Inside(c, ActivateBlank(c, x, pi, entries, n))
    ensures |ActivateBlank(c, x, pi, entries, n)| == Cap(n, entries)
    ensures Inside(c, ActivateInner(c, x, mount, pi, cells, entries, n))
  {
    var p := x.ring(pi);
    var newLb := RaisedLowerBound(p, Cap(n, entries));
    var bump := ActivateBump(c, x, pi, entries, n);
    var copies := ActivateCopies(c, x, mount, pi, cells, entries, n);
    RelocateInside(c, cells, ShrinkSpan(x, mount, pi, n), entries, 2 * Cap(n, entries), Cap(n, entries),
                   newLb, Window(newLb, p.nextVersion));
    InsideAppend(c, bump, copies);
    MoveSlotsInside(c, x, pi, n, 1 - pi, 0, n);
    InsideAppend(c, bump + copies, MoveSlots(c, x, pi, n, 1 - pi, 0, n));
    FillInside(c, MovedIds(x, pi, n, 1 - pi, 0, n), entries, 0, Cap(n, entries));
    var front := ActivateFront(c, x, mount, pi, cells, entries, n);
    InsideAppend(c, front, ActivateBlank(c, x, pi, entries, n));
    InsideAppend(c, front + ActivateBlank(c, x, pi, entries, n), ActivateCommit(c, pi, n));
  }

  lemma DeactivateInside(c: Bit, x: Metadata, mount: Metadata, pi: Bit, cells: Cells, entries: Pos, n: nat)
    ensures Inside(c, DeactivateMoves(c, x, pi, n))
    ensures Inside(c, DeactivateData(c, x, mount, pi, cells, entries, n))
    ensures Inside(c, DeactivateInner(c, x, mount, pi, cells, entries, n))
  {
    var p := x.ring(pi);
    MoveSlotsInside(c, x, 1 - pi, 0, pi, p.len, Window(p.len, n));
    var moves := DeactivateMoves(c, x, pi, n);
    var data := DeactivateData(c, x, mount, pi, cells, entries, n);
    if 0 < p.len < n {
      FillInside(c, GrowSpan(x, mount, pi, n), entries, Cap(p.len, entries), Cap(n - p.len, entries));
      RelocateInside(c, cells, GrowSpan(x, mount, pi, n), entries, Cap(p.len, entries), Cap(n, entries),
                     p.lowerBound, Window(p.lowerBound, p.nextVersion));
    }
    InsideAppend(c, moves, data);
    InsideAppend(c, moves + data, DeactivateCommit(c, pi, n));
  }

  lemma InnerInside(op: OpKind, c: Bit, x: Metadata, mount: Metadata, pi: Bit, cells: Cells, entries: Pos, n: nat)
    ensures Inside(c, Inner(op, c, x, mount, pi, cells, entries, n))
  {
    if op == Activate && n != 0 {
      ActivateInside(c, x, mount, pi, cells, entries, n);
    } else if op == Deactivate {
      DeactivateInside(c, x, mount, pi, cells, entries, n);
    }
  }

  predicate HeaderOnly(c: Bit, ws: seq<Write>) {
    forall i :: 0 <= i < |ws| ==> ws[i].Store? && ws[i].c == c
  }

  lemma PutSlot(m: Metadata, i: Bit, s: SlotList, k: nat, id: nat)
    requires k < SLOTS
    ensures Put(m.withRing(i, m.ring(i).(slots := s)), ChunkSlot(i, k, id))
            == m.withRing(i, m.ring(i).(slots := s[k := id]))
    ensures m.withRing(i, m.ring(i).(slots := m.ring(i).slots)) == m
  {
  }

  lemma {:induction false} SlotStoresEffect(c: Bit, i: Bit, s: SlotList, n: nat, m: Metadata)
    requires n <= SLOTS
    ensures HeaderOnly(c, SlotStores(c, i, s, n))
    ensures MetaEffect(m, SlotStores(c, i, s, n)) ==
            m.withRing(i, m.ring(i).(slots := s[..n] + m.ring(i).slots[n..]))
  {
    var t := m.ring(i).slots;
    if n == 0 {
      assert s[..0] + t[0..] == t;
      PutSlot(m, i, t, 0, 0);
    } else {
      SlotStoresEffect(c, i, s, n - 1, m);
      var ws := SlotStores(c, i, s, n);
      assert ws[..|ws| - 1] == SlotStores(c, i, s, n - 1);
      assert (s[..n - 1] + t[n - 1..])[n - 1 := s[n - 1]] == s[..n] + t[n..];
      PutSlot(m, i, s[..n - 1] + t[n - 1..], n - 1, s[n - 1]);
    }
  }

  lemma RingStoresEffect(c: Bit, i: Bit, r: Ring, m: Metadata)
    ensures HeaderOnly(c, RingStores(c, i, r))
    ensures MetaEffect(m, RingStores(c, i, r)) == m.withRing(i, r.(nextVersion := 0))
  {
    var xs := [Store(c, LowerBound(i, r.lowerBound)), Store(c, NextVersion(i, 0)), Store(c, ChunksLen(i, r.len))];
    var ys := SlotStores(c, i, r.slots, SLOTS);
    var zs := [Store(c, AutoExpire(i, r.autoExpire))];
    Steps3(m, xs);
    var m1 := MetaEffect(m, xs);
    EffectAppend(m, map[], xs, ys);
    SlotStoresEffect(c, i, r.slots, SLOTS, m1);
    assert r.slots[..SLOTS] + m1.ring(i).slots[SLOTS..] == r.slots;
    EffectAppend(m, map[], xs + ys, zs);
    assert zs[..0] == [];
  }

  lemma Steps3(m: Metadata, ws: seq<Write>)
    requires |ws| == 3 && ws[0].Store? && ws[1].Store? && ws[2].Store?
    ensures MetaEffect(m, ws) == Put(Put(Put(m, ws[0].f), ws[1].f), ws[2].f)
  {
    assert ws[..2][..1] == ws[..1] && ws[..1][..0] == [];
    assert MetaEffect(m, ws[..1]) == Put(m, ws[0].f);
    assert MetaEffect(m, ws[..2]) == Put(Put(m, ws[0].f), ws[1].f);
  }

  lemma Steps2(m: Metadata, ws: seq<Write>)
    requires |ws| == 2 && ws[0].Store? && ws[1].Store?
    ensures MetaEffect(m, ws) == Put(Put(m, ws[0].f), ws[1].f)
  {
    assert ws[..1][..0] == [];
    assert MetaEffect(m, ws[..1]) == Put(m, ws[0].f);
  }

  /** The field-by-field copy makes the destination equal to its source. */
  lemma CopyInnerEffect(c: Bit, s: Metadata, m: Metadata)
    ensures HeaderOnly(c, CopyInner(c, s))
    ensures MetaEffect(m, CopyInner(c, s)) == s
    ensures forall cells: Cells :: CellsEffect(cells, CopyInner(c, s)) == cells
  {
    var front := CopyFront(c, s);
    var w3 := RingStores(c, 1, s.b);
    var w4 := LastStores(c, s);
    CopyFrontEffect(c, s, m);
    var m2 := MetaEffect(m, front);
    EffectAppend(m, map[], front, w3);
    RingStoresEffect(c, 1, s.b, m2);
    EffectAppend(m, map[], front + w3, w4);
    LastEffect(c, s, MetaEffect(m2, w3));
    forall cells: Cells ensures CellsEffect(cells, CopyInner(c, s)) == cells {
      NoCells(cells, CopyInner(c, s));
    }
  }

  lemma CopyFrontEffect(c: Bit, s: Metadata, m: Metadata)
    ensures HeaderOnly(c, CopyFront(c, s))
    ensures var r := MetaEffect(m, CopyFront(c, s));
            r.a == s.a.(nextVersion := 0) && r.historyLength == s.historyLength && r.consensus == s.consensus
  {
    var w0 := [Store(c, NextVersion(0, 0)), Store(c, NextVersion(1, 0))];
    var w1 := RingStores(c, 0, s.a);
    Steps2(m, w0);
    var m0 := MetaEffect(m, w0);
    EffectAppend(m, map[], w0, w1);
    RingStoresEffect(c, 0, s.a, m0);
    EffectAppend(m, map[], w0 + w1, MiddleStores(c, s));
    MiddleEffect(c, s, MetaEffect(m0, w1));
  }

  lemma MarkerEffect(c: Bit, s: Metadata, m: Metadata)
    ensures MetaEffect(m, MarkerStores(c, s)) ==
            m.(historyLength := s.historyLength,
               consensus := m.consensus.(finalizedVersion := s.consensus.finalizedVersion,
                                         verifiedVersion := s.consensus.verifiedVersion))
  {
    Steps3(m, MarkerStores(c, s));
  }

  lemma VersionEffect(c: Bit, s: Metadata, m: Metadata)
    ensures MetaEffect(m, VersionStores(c, s)) ==
            m.(consensus := m.consensus.(votedVersion := s.consensus.votedVersion,
                                         proposedVersion := s.consensus.proposedVersion))
  {
    Steps2(m, VersionStores(c, s));
  }

  lemma BlockEffect(c: Bit, s: Metadata, m: Metadata)
    ensures MetaEffect(m, BlockStores(c, s)) ==
            m.(consensus := m.consensus.(votedBlock := s.consensus.votedBlock,
                                         proposedBlock := s.consensus.proposedBlock))
  {
    Steps2(m, BlockStores(c, s));
  }

  lemma ThreeParts(m: Metadata, xs: seq<Write>, ys: seq<Write>, zs: seq<Write>)
    ensures MetaEffect(m, xs + ys + zs) == MetaEffect(MetaEffect(MetaEffect(m, xs), ys), zs)
  {
    EffectAppend(m, map[], xs, ys);
    EffectAppend(m, map[], xs + ys, zs);
  }

  lemma MiddleEffect(c: Bit, s: Metadata, m: Metadata)
    ensures MetaEffect(m, MiddleStores(c, s)) == m.(historyLength := s.historyLength, consensus := s.consensus)
  {
    ThreeParts(m, MarkerStores(c, s), VersionStores(c, s), BlockStores(c, s));
    MarkerEffect(c, s, m);
    var m1 := MetaEffect(m, MarkerStores(c, s));
    VersionEffect(c, s, m1);
    BlockEffect(c, s, MetaEffect(m1, VersionStores(c, s)));
  }

  lemma LastEffect(c: Bit, s: Metadata, m: Metadata)
    ensures MetaEffect(m, LastStores(c, s)) ==
            m.(primary := s.primary, active := s.active, kind := s.kind, param := s.param,
               a := m.a.(nextVersion := s.a.nextVersion), b := m.b.(nextVersion := s.b.nextVersion))
  {
    var ws := LastStores(c, s);
    assert ws == ws[..3] + ws[3..];
    EffectAppend(m, map[], ws[..3], ws[3..]);
    Steps3(m, ws[..3]);
    Steps3(MetaEffect(m, ws[..3]), ws[3..]);
  }

  lemma {:induction false} NoCells(cells: Cells, ws: seq<Write>)
    requires forall i :: 0 <= i < |ws| ==> ws[i].Store?
    ensures CellsEffect(cells, ws) == cells
  {
    if ws != [] {
      NoCells(cells, ws[..|ws| - 1]);
    }
  }
}
