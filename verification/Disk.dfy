/**
 The persistent state of a metadata context: two copies of the metadata header and,
 for each copy, the ring entries stored in the conventional chunks.

 Every store the program makes is a `Write`.  An operation is a sequence of writes, and a
 process crash keeps a prefix of that sequence.  Ring entries belong to (chunk, entry)
 cells rather than to rings, because one chunk serves different rings over time.
 */
module Disk {

  type Bit = b: nat | b <= 1
  type Pos = n: nat | 0 < n witness 1
  type Offset = nat

  /** All bits set; also what a fresh chunk and a `memset` with 0xff hold. */
  const INVALID_OFFSET: Offset := 0xFFFF_FFFF_FFFF_FFFF
  const INVALID_BLOCK_NUM: nat := 0xFFFF_FFFF_FFFF_FFFF
  const NULL_CHUNK: nat := 0xFFFF_FFFF
  const SLOTS: nat := 31
  const MIN_HISTORY_LENGTH: nat := 300

  type SlotList = s: seq<nat> | |s| == SLOTS witness seq(SLOTS, _ => NULL_CHUNK)

  datatype Ring = Ring(lowerBound: nat, nextVersion: nat, len: nat, slots: SlotList, autoExpire: int)

  datatype OpKind = NoOp | Activate | Deactivate | Promote

  /** The consensus block of the header; a block id is named by a number. */
  datatype Consensus = Consensus(
    finalizedVersion: nat, verifiedVersion: nat,
    votedVersion: nat, votedBlock: nat, proposedVersion: nat, proposedBlock: nat)

  /** One header.  Its dirty byte is kept beside it, in `Disk`. */
  datatype Metadata = Metadata(
    a: Ring, b: Ring, primary: Bit, active: bool, kind: OpKind, param: nat, historyLength: nat, consensus: Consensus)
  {
    function ring(i: Bit): Ring {
      if i == 0 then a else b
    }

    function withRing(i: Bit, r: Ring): Metadata {
      if i == 0 then this.(a := r) else this.(b := r)
    }

    function primaryRing(): Ring {
      ring(primary)
    }

    function secondaryRing(): Ring {
      ring(1 - primary)
    }
  }

  /** A cell that no write has touched still holds the 0xff fill of pool creation. */
  type Cells = map<(nat, nat), Offset>

  function At(cells: Cells, cell: (nat, nat)): Offset {
    if cell in cells then cells[cell] else INVALID_OFFSET
  }

  datatype Disk = Disk(
    entries: Pos, dirty0: bool, dirty1: bool, m0: Metadata, m1: Metadata, cells0: Cells, cells1: Cells)
  {
    function meta(c: Bit): Metadata {
      if c == 0 then m0 else m1
    }

    function cells(c: Bit): Cells {
      if c == 0 then cells0 else cells1
    }

    /** The disk with copy `c` replaced: its dirty byte, its header and its ring entries. */
    function withCopy(c: Bit, dirty: bool, m: Metadata, cs: Cells): Disk {
      if c == 0 then this.(dirty0 := dirty, m0 := m, cells0 := cs) else this.(dirty1 := dirty, m1 := m, cells1 := cs)
    }

    function dirty(c: Bit): bool {
      if c == 0 then dirty0 else dirty1
    }
  }

  /** One store into a metadata header other than the dirty byte. */
  datatype Field =
    | LowerBound(r: Bit, v: nat)
    | NextVersion(r: Bit, v: nat)
    | ChunksLen(r: Bit, n: nat)
    | ChunkSlot(r: Bit, k: nat, id: nat)
    | AutoExpire(r: Bit, x: int)
    | PrimaryIdx(i: Bit)
    | ActiveFlag(on: bool)
    | PendingKind(op: OpKind)
    | PendingParam(p: nat)
    | HistoryLength(n: nat)
    | FinalizedVersion(v: nat)
    | VerifiedVersion(v: nat)
    | VotedVersion(v: nat)
    | VotedBlock(id: nat)
    | ProposedVersion(v: nat)
    | ProposedBlock(id: nat)

  datatype Write =
    | Dirty(c: Bit, on: bool)
    | Store(c: Bit, f: Field)
    | Cell(c: Bit, at: (nat, nat), off: Offset)

  function Put(m: Metadata, f: Field): Metadata {
    match f
    case LowerBound(r, v) => m.withRing(r, m.ring(r).(lowerBound := v))
    case NextVersion(r, v) => m.withRing(r, m.ring(r).(nextVersion := v))
    case ChunksLen(r, n) => m.withRing(r, m.ring(r).(len := n))
    case ChunkSlot(r, k, id) =>
      if k < SLOTS then m.withRing(r, m.ring(r).(slots := m.ring(r).slots[k := id])) else m
    case AutoExpire(r, x) => m.withRing(r, m.ring(r).(autoExpire := x))
    case PrimaryIdx(i) => m.(primary := i)
    case ActiveFlag(on) => m.(active := on)
    case PendingKind(op) => m.(kind := op)
    case PendingParam(p) => m.(param := p)
    case HistoryLength(n) => m.(historyLength := n)
    case FinalizedVersion(v) => m.(consensus := m.consensus.(finalizedVersion := v))
    case VerifiedVersion(v) => m.(consensus := m.consensus.(verifiedVersion := v))
    case VotedVersion(v) => m.(consensus := m.consensus.(votedVersion := v))
    case VotedBlock(id) => m.(consensus := m.consensus.(votedBlock := id))
    case ProposedVersion(v) => m.(consensus := m.consensus.(proposedVersion := v))
    case ProposedBlock(id) => m.(consensus := m.consensus.(proposedBlock := id))
  }

  function Apply(d: Disk, w: Write): Disk {
    match w
    case Dirty(c, on) => d.withCopy(c, on, d.meta(c), d.cells(c))
    case Store(c, f) => d.withCopy(c, d.dirty(c), Put(d.meta(c), f), d.cells(c))
    case Cell(c, at, off) => d.withCopy(c, d.dirty(c), d.meta(c), d.cells(c)[at := off])
  }

  function Run(d: Disk, ws: seq<Write>): Disk {
    if ws == [] then d else Apply(Run(d, ws[..|ws| - 1]), ws[|ws| - 1])
  }

  /** What a process crash after at most `k` of the writes leaves behind. */
  function Crash(d: Disk, ws: seq<Write>, k: nat): Disk {
    Run(d, ws[..if k < |ws| then k else |ws|])
  }

  lemma {:induction false} RunAppend(d: Disk, xs: seq<Write>, ys: seq<Write>)
    ensures Run(d, xs + ys) == Run(Run(d, xs), ys)
  {
    if ys == [] {
      assert xs + ys == xs;
    } else {
      var n := |ys| - 1;
      assert (xs + ys)[..|xs + ys| - 1] == xs + ys[..n];
      RunAppend(d, xs, ys[..n]);
    }
  }

  /** A crash in a composed program happened in its first part ... */
  lemma CrashFirst(d: Disk, xs: seq<Write>, ys: seq<Write>, k: nat)
    requires k <= |xs|
    ensures Crash(d, xs + ys, k) == Crash(d, xs, k)
  {
    assert (xs + ys)[..k] == xs[..k];
  }

  /** ... or in its second part, after the first was complete. */
  lemma CrashSecond(d: Disk, xs: seq<Write>, ys: seq<Write>, k: nat)
    requires |xs| <= k
    ensures Crash(d, xs + ys, k) == Crash(Run(d, xs), ys, k - |xs|)
  {
    var j := if k - |xs| < |ys| then k - |xs| else |ys|;
    var part := ys[..j];
    assert (xs + ys)[..|xs| + j] == xs + part;
    RunAppend(d, xs, part);
  }

  lemma CrashWhole(d: Disk, xs: seq<Write>, k: nat)
    requires |xs| <= k
    ensures Crash(d, xs, k) == Run(d, xs)
  {
    assert xs[..|xs|] == xs;
  }

  // ---------------------------------------------------------------- dirty scopes

  /** Writes that stay inside copy `c` and leave its dirty byte alone. */
  predicate Inside(c: Bit, ws: seq<Write>) {
    forall i :: 0 <= i < |ws| ==> !ws[i].Dirty? && ws[i].c == c
  }

  /** The `hold_dirty` discipline: raise the flag, write, lower the flag. */
  function Scope(c: Bit, inner: seq<Write>): seq<Write> {
    [Dirty(c, true)] + inner + [Dirty(c, false)]
  }

  function MetaEffect(m: Metadata, ws: seq<Write>): Metadata {
    if ws == [] then m
    else
      var w := ws[|ws| - 1];
      var before := MetaEffect(m, ws[..|ws| - 1]);
      if w.Store? then Put(before, w.f) else before
  }

  function CellsEffect(cells: Cells, ws: seq<Write>): Cells {
    if ws == [] then cells
    else
      var w := ws[|ws| - 1];
      var before := CellsEffect(cells, ws[..|ws| - 1]);
      if w.Cell? then before[w.at := w.off] else before
  }

  lemma {:induction false} RunInside(d: Disk, c: Bit, ws: seq<Write>)
    requires Inside(c, ws)
    ensures Run(d, ws) == d.withCopy(c, d.dirty(c), MetaEffect(d.meta(c), ws), CellsEffect(d.cells(c), ws))
  {
    if ws != [] {
      RunInside(d, c, ws[..|ws| - 1]);
    }
  }

  lemma {:induction false} EffectAppend(m: Metadata, cells: Cells, xs: seq<Write>, ys: seq<Write>)
    ensures MetaEffect(m, xs + ys) == MetaEffect(MetaEffect(m, xs), ys)
    ensures CellsEffect(cells, xs + ys) == CellsEffect(CellsEffect(cells, xs), ys)
  {
    if ys == [] {
      assert xs + ys == xs;
    } else {
      var n := |ys| - 1;
      assert (xs + ys)[..|xs + ys| - 1] == xs + ys[..n];
      EffectAppend(m, cells, xs, ys[..n]);
    }
  }

  /** A completed scope: the copy is clean again and only that copy changed. */
  lemma ScopeClosed(d: Disk, c: Bit, inner: seq<Write>)
    requires Inside(c, inner)
    ensures Run(d, Scope(c, inner))
            == d.withCopy(c, false, MetaEffect(d.meta(c), inner), CellsEffect(d.cells(c), inner))
  {
    var xs := [Dirty(c, true)] + inner;
    ScopeOpen(d, c, inner, |xs|);
    assert Scope(c, inner)[..|xs|] == xs && inner[..|inner|] == inner;
  }

  /** A crash inside a scope: the copy is still dirty, the other copy is untouched, and the
      ring cells of the scope's copy reflect a prefix of the inner writes. */
  lemma ScopeOpen(d: Disk, c: Bit, inner: seq<Write>, k: nat)
    requires Inside(c, inner)
    requires 0 < k < |Scope(c, inner)|
    ensures Crash(d, Scope(c, inner), k) ==
            d.withCopy(c, true, MetaEffect(d.meta(c), inner[..k - 1]), CellsEffect(d.cells(c), inner[..k - 1]))
  {
    var first := [Dirty(c, true)];
    assert first[..0] == [];
    var part := inner[..k - 1];
    assert Scope(c, inner)[..k] == first + part;
    RunAppend(d, first, part);
    RunInside(Apply(d, Dirty(c, true)), c, part);
  }

  // ---------------------------------------------------------------- ring positions

  /** Entries in `n` chunks, that is `n * entries`; see `Arithmetic.CapIsProduct`. */
  function Cap(n: nat, entries: Pos): nat {
    if n == 0 then 0 else entries + Cap(n - 1, entries)
  }

  /** The position of version `v` in a ring of `cap` entries: `v & (cap - 1)` for a power of
      two, that is `v % cap`; see `Arithmetic.WrapIsRemainder`. */
  function Wrap(v: nat, cap: Pos): (p: nat)
    ensures p < cap
  {
    if v < cap then v else Wrap(v - cap, cap)
  }

  /** The cell at position `p` of chunks mapped in the order `slots`; positions beyond the
      mapped chunks belong to the null chunk. */
  function Locate(slots: seq<nat>, entries: Pos, p: nat): (nat, nat) {
    if slots == [] then (NULL_CHUNK, p)
    else if p < entries then (slots[0], p)
    else Locate(slots[1..], entries, p - entries)
  }

  /** The entry a ring of capacity `cap` holds for version `v`. */
  function ReadRing(cells: Cells, slots: seq<nat>, entries: Pos, cap: Pos, v: nat): Offset {
    At(cells, Locate(slots, entries, Wrap(v, cap)))
  }

  function MaxVersion(r: Ring): nat {
    if r.nextVersion == 0 then INVALID_BLOCK_NUM else r.nextVersion - 1
  }

  /** Timeline 0 is the primary role and timeline 1 the secondary role. */
  function RingOf(m: Metadata, t: Bit): Bit {
    if t == 0 then m.primary else 1 - m.primary
  }

  predicate TimelineActive(m: Metadata, t: Bit) {
    t == 0 || m.active
  }

  function RangeLowerBound(m: Metadata, t: Bit): nat {
    var r := m.ring(RingOf(m, t));
    if !TimelineActive(m, t) || MaxVersion(r) == INVALID_BLOCK_NUM then INVALID_BLOCK_NUM else r.lowerBound
  }

  function HistoryMax(m: Metadata, t: Bit): nat {
    if !TimelineActive(m, t) then INVALID_BLOCK_NUM else MaxVersion(m.ring(RingOf(m, t)))
  }

  function AutoExpireOf(m: Metadata, t: Bit): int {
    m.ring(RingOf(m, t)).autoExpire
  }

  /** What a query for version `v` on timeline `t` returns; every query reads copy 0. */
  function RootOffsetAt(d: Disk, t: Bit, v: nat): Offset {
    var r := d.m0.ring(RingOf(d.m0, t));
    var lb := RangeLowerBound(d.m0, t);
    var cap := Cap(r.len, d.entries);
    if lb == INVALID_BLOCK_NUM || v < lb || MaxVersion(r) < v || cap == 0 then INVALID_OFFSET
    else ReadRing(d.cells0, r.slots, d.entries, cap, v)
  }

  /** How many versions timeline `t` has room for. */
  function Capacity(d: Disk, t: Bit): nat {
    Cap(d.m0.ring(RingOf(d.m0, t)).len, d.entries)
  }

  /** No query about a timeline or its versions tells the two disks apart. */
  ghost predicate SameVersions(d: Disk, e: Disk) {
    && (forall t: Bit :: TimelineActive(d.m0, t) <==> TimelineActive(e.m0, t))
    && (forall t: Bit :: RangeLowerBound(d.m0, t) == RangeLowerBound(e.m0, t))
    && (forall t: Bit :: HistoryMax(d.m0, t) == HistoryMax(e.m0, t))
    && (forall t: Bit :: AutoExpireOf(d.m0, t) == AutoExpireOf(e.m0, t))
    && (forall t: Bit :: Capacity(d, t) == Capacity(e, t))
    && (forall t: Bit, v: nat :: RootOffsetAt(d, t, v) == RootOffsetAt(e, t, v))
  }

  /** No query on copy 0 tells the two disks apart: neither those about versions nor the
      history length and the consensus markers. */
  ghost predicate SameAnswers(d: Disk, e: Disk) {
    SameVersions(d, e) && d.m0.historyLength == e.m0.historyLength && d.m0.consensus == e.m0.consensus
  }
}
