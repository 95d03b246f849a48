/**
 Splitting the ring of a migrated pool.  A new pool marks the free slots of both chunk lists
 with the null chunk; the migration leaves the slots of the second list zero, and zero is the
 id of the chunk that holds the metadata.  Activation then maps the secondary ring onto the
 very pages of the copy it is working on.
 */
module MigratedPool {
  import opened Migration
  import Reopening
  import D = Disk
  import P = Programs
  import A = Arithmetic
  import RD = RingData
  import Phases
  import PD = PhaseData

  /** The conventional chunk that holds both copies of the metadata. */
  const METADATA_CHUNK: nat := 0

  // ---------------------------------------------------------------- the header behind the bytes

  const RING_A: nat := 24
  const STATE_B: nat := 704
  const PRIMARY_IDX: nat := 720
  const ACTIVE: nat := 721
  const PENDING: nat := 736
  const HISTORY: nat := 328

  /** A little-endian number of `len` bytes. */
  function Number(m: Mem, at: nat, len: nat): nat
    requires at + len <= |m|
    decreases len
  {
    if len == 0 then 0 else var low: nat := m[at]; low + 256 * Number(m, at + 1, len - 1)
  }

  function Signed(v: nat): int {
    if v < 0x8000_0000_0000_0000 then v else v - 0x1_0000_0000_0000_0000
  }

  /** The chunk id in slot `k` of the ring header at `at`. */
  function SlotId(m: Mem, at: nat, k: nat): nat
    requires k < D.SLOTS && at + 272 <= |m|
  {
    Number(m, at + 28 + 8 * k, 4)
  }

  /** A ring header at `at`, with its per-timeline state at `state`. */
  function RingHeader(m: Mem, at: nat, state: nat): D.Ring
    requires at + 272 <= |m| && state + 8 <= |m|
  {
    D.Ring(Number(m, at, 8), Number(m, at + 8, 8), Number(m, at + 20, 4),
           seq(D.SLOTS, k requires 0 <= k < D.SLOTS => SlotId(m, at, k)), Signed(Number(m, state, 8)))
  }

  function Kind(v: nat): D.OpKind {
    if v == 1 then D.Activate else if v == 2 then D.Deactivate else if v == 3 then D.Promote else D.NoOp
  }

  /** The header that the first bytes of a copy on the new layout stand for. */
  function Header(m: Mem): D.Metadata
    requires NEW_SIZE <= |m|
  {
    D.Metadata(RingHeader(m, RING_A, STATE), RingHeader(m, SECONDARY, STATE_B),
               if m[PRIMARY_IDX] == 0 then 0 else 1, m[ACTIVE] != 0,
               Kind(Number(m, PENDING, 4)), Number(m, PENDING + 4, 4), Number(m, HISTORY, 8),
               D.Consensus(Number(m, HISTORY + 8, 8), Number(m, HISTORY + 16, 8), Number(m, HISTORY + 24, 8),
                           Number(m, BLOCK_IDS, 32), Number(m, HISTORY + 32, 8), Number(m, BLOCK_IDS + 32, 32)))
  }

  lemma {:induction false} SameNumber(m: Mem, x: Mem, at: nat, len: nat)
    requires at + len <= |m| == |x| && forall i :: at <= i < at + len ==> x[i] == m[i]
    ensures Number(x, at, len) == Number(m, at, len)
    decreases len
  {
    if len != 0 {
      SameNumber(m, x, at + 1, len - 1);
    }
  }

  lemma {:induction false} ZeroNumber(m: Mem, at: nat, len: nat)
    requires at + len <= |m| && forall i :: at <= i < at + len ==> m[i] == 0
    ensures Number(m, at, len) == 0
    decreases len
  {
    if len != 0 {
      ZeroNumber(m, at + 1, len - 1);
    }
  }

  predicate ZeroFilled(x: D.Metadata, n: nat) {
    n <= D.SLOTS && forall k :: 0 <= k < n ==> x.secondaryRing().slots[k] == METADATA_CHUNK
  }

  lemma MigratedBytes(m: Mem, n: nat)
    requires RoomFor(m, n)
    ensures forall i: nat :: SECONDARY <= i < LISTS ==> Migrate(m, n)[i] == 0
    ensures forall i: nat :: 16 <= i < STATE ==> Migrate(m, n)[i] == m[i]
  {
    forall i: nat | i < |m| ensures Migrate(m, n)[i] == Take(m, Actual(n, i)) {
      MigrateAt(m, n, i);
    }
  }

  lemma RingAKept(m: Mem, x: Mem, k: nat)
    requires NEW_SIZE <= |m| == |x| && k < D.SLOTS && forall i: nat :: 16 <= i < STATE ==> x[i] == m[i]
    ensures SlotId(x, RING_A, k) == SlotId(m, RING_A, k)
  {
    SameNumber(m, x, RING_A + 28 + 8 * k, 4);
  }

  lemma MigratedRingB(m: Mem, n: nat, r: Mem)
    requires RoomFor(m, n) && r == Migrate(m, n)
    ensures var b := RingHeader(r, SECONDARY, STATE_B);
            b.len == 0 && forall k :: 0 <= k < D.SLOTS ==> b.slots[k] == METADATA_CHUNK
  {
    MigratedBytes(m, n);
    ZeroNumber(r, SECONDARY + 20, 4);
    forall k | 0 <= k < D.SLOTS ensures SlotId(r, SECONDARY, k) == 0 {
      ZeroNumber(r, SECONDARY + 28 + 8 * k, 4);
    }
  }

  lemma MigratedRingA(m: Mem, n: nat, r: Mem)
    requires RoomFor(m, n) && r == Migrate(m, n)
    ensures var a := RingHeader(r, RING_A, STATE);
            && a.len == Number(m, CHUNKS_LEN, 4)
            && forall k :: 0 <= k < D.SLOTS ==> a.slots[k] == SlotId(m, RING_A, k)
  {
    MigratedBytes(m, n);
    SameNumber(m, r, CHUNKS_LEN, 4);
    forall k | 0 <= k < D.SLOTS ensures SlotId(r, RING_A, k) == SlotId(m, RING_A, k) {
      RingAKept(m, r, k);
    }
  }

  /** The header of a migrated pool: the chunk list of ring a as it was, ring b without chunks but with every slot
      naming the metadata chunk, ring a primary, nothing active and nothing pending. */
  lemma MigratedHeader(m: Mem, n: nat)
    requires RoomFor(m, n)
    ensures var x := Header(Migrate(m, n));
            && ZeroFilled(x, D.SLOTS) && x.b.len == 0 && x.primary == 0 && !x.active && x.kind == D.NoOp
            && x.a.len == Number(m, CHUNKS_LEN, 4)
            && forall k :: 0 <= k < D.SLOTS ==> x.a.slots[k] == SlotId(m, RING_A, k)
  {
    var r := Migrate(m, n);
    MigratedBytes(m, n);
    MigratedRingA(m, n, r);
    MigratedRingB(m, n, r);
    ZeroNumber(r, PENDING, 4);
  }

  // ---------------------------------------------------------------- what activation does with the secondary list

  /** A header whose primary ring lists `2 * n` chunks, none of them the metadata chunk. */
  predicate Splits(x: D.Metadata, n: D.Pos) {
    var p := x.primaryRing().slots;
    && 2 * n <= D.SLOTS
    && (forall i, j :: 0 <= i < j < 2 * n ==> p[i] != p[j])
    && forall i :: 0 <= i < 2 * n ==> p[i] != METADATA_CHUNK && p[i] != D.NULL_CHUNK
  }

  /** Each slot of the secondary list is free or already holds the chunk meant for it. */
  predicate SlotsReady(x: D.Metadata, n: D.Pos)
    requires 2 * n <= D.SLOTS
  {
    forall k :: 0 <= k < n ==> x.secondaryRing().slots[k] in {D.NULL_CHUNK, x.primaryRing().slots[n + k]}
  }

  function Ids(x: D.Metadata, n: nat): seq<nat> {
    P.MovedIds(x, x.primary, n, 1 - x.primary, 0, n)
  }

  lemma IdsAt(x: D.Metadata, n: D.Pos, k: nat)
    requires 2 * n <= D.SLOTS && k < n
    ensures Ids(x, n)[k] ==
            if x.secondaryRing().slots[k] != D.NULL_CHUNK then x.secondaryRing().slots[k]
            else x.primaryRing().slots[n + k]
  {
    assert P.SlotAt(x.ring(1 - x.primary), k) == x.secondaryRing().slots[k];
    assert P.SlotAt(x.ring(x.primary), n + k) == x.primaryRing().slots[n + k];
  }

  lemma {:induction false} LocateStart(slots: seq<nat>, e: D.Pos, k: nat)
    requires k < |slots|
    ensures D.Locate(slots, e, D.Cap(k, e)) == (slots[k], 0)
  {
    if k != 0 {
      LocateStart(slots[1..], e, k - 1);
      A.CapAdd(k - 1, 1, e);
    }
  }

  /** Some store of the blanking falls into the metadata chunk exactly when a slot names that chunk. */
  lemma BlanksMetadataIff(c: D.Bit, x: D.Metadata, e: D.Pos, n: D.Pos)
    requires Splits(x, n)
    ensures (exists w :: w in P.ActivateBlank(c, x, x.primary, e, n) && w.Cell? && w.at.0 == METADATA_CHUNK)
            <==> METADATA_CHUNK in x.secondaryRing().slots[..n]
  {
    var ids, ws := Ids(x, n), P.ActivateBlank(c, x, x.primary, e, n);
    RD.FillShape(c, ids, e, 0, D.Cap(n, e));
    PD.FillWithin(c, ids, e, D.Cap(n, e));
    forall k | 0 <= k < n ensures ids[k] == METADATA_CHUNK <==> x.secondaryRing().slots[k] == METADATA_CHUNK {
      IdsAt(x, n, k);
    }
    if METADATA_CHUNK in x.secondaryRing().slots[..n] {
      var k :| 0 <= k < n && x.secondaryRing().slots[..n][k] == METADATA_CHUNK;
      LocateStart(ids, e, k);
      A.CapAdd(k, n - k, e);
      A.CapAdd(n - k, 0, e);
      assert ws[D.Cap(k, e)].at.0 == METADATA_CHUNK;
      assert ws[D.Cap(k, e)] in ws;
    }
    if w :| w in ws && w.Cell? && w.at.0 == METADATA_CHUNK {
      assert w.at.0 in ids;
      var k :| 0 <= k < n && ids[k] == METADATA_CHUNK;
      assert x.secondaryRing().slots[..n][k] == METADATA_CHUNK;
    }
  }

  /** On a zero-filled list every entry that is blanked is in the metadata chunk, from its first entry on. */
  lemma BlanksMetadata(c: D.Bit, x: D.Metadata, e: D.Pos, n: D.Pos)
    requires ZeroFilled(x, n)
    ensures var ws := P.ActivateBlank(c, x, x.primary, e, n);
            && |ws| == D.Cap(n, e) > 0 && ws[0] == D.Cell(c, (METADATA_CHUNK, 0), D.INVALID_OFFSET)
            && forall w :: w in ws ==> w.Cell? && w.at.0 == METADATA_CHUNK
  {
    var ids := Ids(x, n);
    RD.FillShape(c, ids, e, 0, D.Cap(n, e));
    PD.FillWithin(c, ids, e, D.Cap(n, e));
    A.CapAdd(n, 0, e);
    forall k | 0 <= k < n ensures ids[k] == METADATA_CHUNK {
      assert P.SlotAt(x.secondaryRing(), k) == METADATA_CHUNK;
    }
    forall w | w in P.ActivateBlank(c, x, x.primary, e, n) ensures w.Cell? && w.at.0 == METADATA_CHUNK {
      assert w.at.0 in ids;
    }
  }

  /** The lists are the two halves of the primary list. */
  predicate Halves(x: D.Metadata, y: D.Metadata, n: D.Pos)
    requires 2 * n <= D.SLOTS
  {
    && y.primary == x.primary && y.primaryRing().len == n && y.secondaryRing().len == n
    && y.primaryRing().slots[..n] == x.primaryRing().slots[..n]
    && y.secondaryRing().slots[..n] == x.primaryRing().slots[n..2 * n]
  }

  /** What handing over does to the lists. */
  predicate Handed(x: D.Metadata, y: D.Metadata, n: D.Pos, j: nat)
    requires 2 * n <= D.SLOTS && j <= n
  {
    && y.primary == x.primary && y.primaryRing().slots[..n] == x.primaryRing().slots[..n]
    && forall k :: 0 <= k < j ==> y.secondaryRing().slots[k] == Ids(x, n)[k]
  }

  lemma {:induction false} HandsOver(c: D.Bit, x: D.Metadata, x1: D.Metadata, n: D.Pos, j: nat)
    requires 2 * n <= D.SLOTS && j <= n
    requires x1.primary == x.primary && forall i: D.Bit :: x1.ring(i).slots == x.ring(i).slots
    ensures Handed(x, D.MetaEffect(x1, P.MoveSlots(c, x, x.primary, n, 1 - x.primary, 0, j)), n, j)
    ensures forall k :: j <= k < n ==>
              D.MetaEffect(x1, P.MoveSlots(c, x, x.primary, n, 1 - x.primary, 0, j)).secondaryRing().slots[k]
              == x.secondaryRing().slots[k]
  {
    if j == 0 {
      assert D.MetaEffect(x1, []) == x1;
    } else {
      HandsOver(c, x, x1, n, j - 1);
      HandsOne(c, x, x1, n, j - 1);
      HandedMore(x, D.MetaEffect(x1, P.MoveSlots(c, x, x.primary, n, 1 - x.primary, 0, j - 1)),
                 D.MetaEffect(x1, P.MoveSlots(c, x, x.primary, n, 1 - x.primary, 0, j)), n, j - 1);
    }
  }

  lemma HandedMore(x: D.Metadata, m: D.Metadata, m': D.Metadata, n: D.Pos, j: nat)
    requires 2 * n <= D.SLOTS && j < n && Handed(x, m, n, j)
    requires forall k :: j <= k < n ==> m.secondaryRing().slots[k] == x.secondaryRing().slots[k]
    requires m' == if x.secondaryRing().slots[j] != D.NULL_CHUNK then m
                   else D.Put(D.Put(m, D.ChunkSlot(1 - x.primary, j, x.primaryRing().slots[n + j])),
                              D.ChunkSlot(x.primary, n + j, D.NULL_CHUNK))
    ensures Handed(x, m', n, j + 1)
    ensures forall k :: j + 1 <= k < n ==> m'.secondaryRing().slots[k] == x.secondaryRing().slots[k]
  {
    IdsAt(x, n, j);
  }

  lemma HandsOne(c: D.Bit, x: D.Metadata, x1: D.Metadata, n: D.Pos, j: nat)
    requires 2 * n <= D.SLOTS && j < n
    ensures var m := D.MetaEffect(x1, P.MoveSlots(c, x, x.primary, n, 1 - x.primary, 0, j));
            var m' := D.MetaEffect(x1, P.MoveSlots(c, x, x.primary, n, 1 - x.primary, 0, j + 1));
            m' == if x.secondaryRing().slots[j] != D.NULL_CHUNK then m
                  else D.Put(D.Put(m, D.ChunkSlot(1 - x.primary, j, x.primaryRing().slots[n + j])),
                             D.ChunkSlot(x.primary, n + j, D.NULL_CHUNK))
  {
    var pi := x.primary;
    var ws := P.MoveSlots(c, x, pi, n, 1 - pi, 0, j);
    assert P.SlotAt(x.ring(1 - pi), j) == x.secondaryRing().slots[j];
    assert P.SlotAt(x.ring(pi), n + j) == x.primaryRing().slots[n + j];
    if x.secondaryRing().slots[j] == D.NULL_CHUNK {
      var two := [D.Store(c, D.ChunkSlot(1 - pi, j, x.primaryRing().slots[n + j])),
                  D.Store(c, D.ChunkSlot(pi, n + j, D.NULL_CHUNK))];
      D.EffectAppend(x1, map[], ws, two);
      P.Steps2(D.MetaEffect(x1, ws), two);
    } else {
      assert ws + [] == ws;
    }
  }

  lemma FrontHands(c: D.Bit, x: D.Metadata, mount: D.Metadata, cells: D.Cells, e: D.Pos, n: D.Pos)
    requires 2 * n <= D.SLOTS
    ensures Handed(x, D.MetaEffect(x, P.ActivateFront(c, x, mount, x.primary, cells, e, n)), n, n)
  {
    var pi := x.primary;
    var bump, copies := P.ActivateBump(c, x, pi, e, n), P.ActivateCopies(c, x, mount, pi, cells, e, n);
    Phases.BumpMeta(c, x, pi, e, n);
    Phases.CopiesCellsOnly(c, x, mount, pi, cells, e, n);
    var x1 := D.MetaEffect(x, bump);
    Phases.NoStores(x1, copies);
    P.ThreeParts(x, bump, copies, P.MoveSlots(c, x, pi, n, 1 - pi, 0, n));
    HandsOver(c, x, x1, n, n);
  }

  lemma CommitLists(c: D.Bit, y: D.Metadata, n: nat)
    ensures var z := D.MetaEffect(y, P.ActivateCommit(c, y.primary, n));
            && z.primary == y.primary && z.primaryRing().len == n && z.secondaryRing().len == n
            && z.primaryRing().slots == y.primaryRing().slots && z.secondaryRing().slots == y.secondaryRing().slots
  {
    Phases.Steps5(y, P.ActivateCommit(c, y.primary, n));
  }

  /** The lists that the stores of the body leave, on a header that the blanking does not reach. */
  lemma BodyLists(c: D.Bit, x: D.Metadata, mount: D.Metadata, cells: D.Cells, e: D.Pos, n: D.Pos)
    requires 2 * n <= D.SLOTS
    ensures var y := D.MetaEffect(x, P.ActivateInner(c, x, mount, x.primary, cells, e, n));
            Handed(x, y, n, n) && y.primaryRing().len == n && y.secondaryRing().len == n
  {
    var pi := x.primary;
    var front, blank := P.ActivateFront(c, x, mount, pi, cells, e, n), P.ActivateBlank(c, x, pi, e, n);
    var commit := P.ActivateCommit(c, pi, n);
    assert P.ActivateInner(c, x, mount, pi, cells, e, n) == front + (blank + commit);
    D.EffectAppend(x, cells, front, blank + commit);
    FrontHands(c, x, mount, cells, e, n);
    Phases.BlankMeta(c, x, D.MetaEffect(x, front), pi, cells, e, n);
    CommitLists(c, D.MetaEffect(x, front), n);
  }

  /** Activation leaves the two halves of the chunk list and the metadata alone exactly when each slot of the
      secondary list was free or already held the chunk meant for it. */
  lemma SplitRightIff(c: D.Bit, x: D.Metadata, mount: D.Metadata, cells: D.Cells, e: D.Pos, n: D.Pos)
    requires Splits(x, n)
    ensures var y := D.MetaEffect(x, P.ActivateInner(c, x, mount, x.primary, cells, e, n));
            && (Halves(x, y, n) <==> SlotsReady(x, n))
            && (SlotsReady(x, n) ==>
                  forall w :: w in P.ActivateBlank(c, x, x.primary, e, n) && w.Cell? ==> w.at.0 != METADATA_CHUNK)
  {
    BodyLists(c, x, mount, cells, e, n);
    BlanksMetadataIff(c, x, e, n);
    var y := D.MetaEffect(x, P.ActivateInner(c, x, mount, x.primary, cells, e, n));
    var p := x.primaryRing().slots;
    forall k | 0 <= k < n
      ensures y.secondaryRing().slots[..n][k] == p[n..2 * n][k]
              <==> x.secondaryRing().slots[k] in {D.NULL_CHUNK, p[n + k]}
    {
      IdsAt(x, n, k);
    }
    if SlotsReady(x, n) {
      assert METADATA_CHUNK !in x.secondaryRing().slots[..n] by {
        forall k | 0 <= k < n ensures x.secondaryRing().slots[..n][k] != METADATA_CHUNK {
          assert x.secondaryRing().slots[k] in {D.NULL_CHUNK, p[n + k]};
        }
      }
    }
  }

  // ---------------------------------------------------------------- activation on the bytes of a copy

  const RING_B_NEXT: nat := 440
  const RING_B_LEN: nat := 452

  function Ones(n: nat): Mem {
    seq(n, _ => 255)
  }

  /** A slot naming the metadata chunk is mapped onto the half of that chunk that holds the copy at work, and the
      blanking fills each of the `n` mapped slots. */
  function Wipes(len: nat, n: nat): seq<Poke> {
    if n == 0 then [] else Wipes(len, n - 1) + Pokes(0, Ones(len))
  }

  /** The last stores of the body: the secondary's bounds, both lengths, the active flag, the lowered dirty mark. */
  function Commit(n: Byte): seq<Poke> {
    Pokes(SECONDARY, Zeros(8)) + (Pokes(RING_B_NEXT, Zeros(8)) + (Pokes(CHUNKS_LEN, [n, 0, 0, 0]) +
    (Pokes(RING_B_LEN, [n, 0, 0, 0]) + (Pokes(ACTIVE, [1]) + Pokes(DIRTY, [0])))))
  }

  /** Ring a is primary and the first `n` slots of ring b name the metadata chunk. */
  predicate OntoItself(m: Mem, n: Byte) {
    NEW_SIZE <= |m| && 0 < n && ZeroFilled(Header(m), n) && Header(m).primary == 0
  }

  /** The byte stores that the activation body makes into such a copy.  `bump` is the raised lower bound, if it is
      raised; the ring entries it copies are in other chunks. */
  function SplitStores(m: Mem, n: Byte, bump: Mem): seq<Poke>
    requires OntoItself(m, n)
  {
    (Pokes(DIRTY, [1]) + Pokes(RING_A, bump)) + (Wipes(|m|, n) + Commit(n))
  }

  lemma {:induction false} WipesRun(m: Mem, n: nat)
    requires 0 < n
    ensures Poked(m, Wipes(|m|, n)) == Ones(|m|)
  {
    var x := Poked(m, Wipes(|m|, n - 1));
    PokedAppend(m, Wipes(|m|, n - 1), Pokes(0, Ones(|m|)));
    PokesRun(x, 0, Ones(|m|));
    assert Set(x, 0, Ones(|m|)) == Ones(|m|);
  }

  function Committed(x: Mem, n: Byte): Mem
    requires NEW_SIZE <= |x|
  {
    Set(Set(Set(Set(Set(Set(x, SECONDARY, Zeros(8)), RING_B_NEXT, Zeros(8)), CHUNKS_LEN, [n, 0, 0, 0]),
                RING_B_LEN, [n, 0, 0, 0]), ACTIVE, [1]), DIRTY, [0])
  }

  lemma CommitRun(x: Mem, n: Byte)
    requires NEW_SIZE <= |x|
    ensures Poked(x, Commit(n)) == Committed(x, n)
  {
    var p1, p2, p3 := Pokes(SECONDARY, Zeros(8)), Pokes(RING_B_NEXT, Zeros(8)), Pokes(CHUNKS_LEN, [n, 0, 0, 0]);
    var p4, p5, p6 := Pokes(RING_B_LEN, [n, 0, 0, 0]), Pokes(ACTIVE, [1]), Pokes(DIRTY, [0]);
    var x1 := Set(x, SECONDARY, Zeros(8));
    var x2 := Set(x1, RING_B_NEXT, Zeros(8));
    var x3 := Set(x2, CHUNKS_LEN, [n, 0, 0, 0]);
    var x4 := Set(x3, RING_B_LEN, [n, 0, 0, 0]);
    var x5 := Set(x4, ACTIVE, [1]);
    PokesRun(x, SECONDARY, Zeros(8));
    PokesRun(x1, RING_B_NEXT, Zeros(8));
    PokesRun(x2, CHUNKS_LEN, [n, 0, 0, 0]);
    PokesRun(x3, RING_B_LEN, [n, 0, 0, 0]);
    PokesRun(x4, ACTIVE, [1]);
    PokesRun(x5, DIRTY, [0]);
    PokedAppend(x, p1, p2 + (p3 + (p4 + (p5 + p6))));
    PokedAppend(x1, p2, p3 + (p4 + (p5 + p6)));
    PokedAppend(x2, p3, p4 + (p5 + p6));
    PokedAppend(x3, p4, p5 + p6);
    PokedAppend(x4, p5, p6);
  }

  /** What the six stores put where. */
  function CommittedByte(n: Byte, i: nat, otherwise: Byte): Byte {
    if SECONDARY <= i < SECONDARY + 16 || i == DIRTY then 0
    else if i == CHUNKS_LEN || i == RING_B_LEN then n
    else if CHUNKS_LEN < i < CHUNKS_LEN + 4 || RING_B_LEN < i < RING_B_LEN + 4 then 0
    else if i == ACTIVE then 1
    else otherwise
  }

  lemma CommittedAt(x: Mem, n: Byte, i: nat)
    requires NEW_SIZE <= |x| && i < |x|
    ensures |Committed(x, n)| == |x| && Committed(x, n)[i] == CommittedByte(n, i, x[i])
  {
    var x1 := Set(x, SECONDARY, Zeros(8));
    var x2 := Set(x1, RING_B_NEXT, Zeros(8));
    var x3 := Set(x2, CHUNKS_LEN, [n, 0, 0, 0]);
    var x4 := Set(x3, RING_B_LEN, [n, 0, 0, 0]);
    SetAt(x, SECONDARY, Zeros(8), i);
    SetAt(x1, RING_B_NEXT, Zeros(8), i);
    SetAt(x2, CHUNKS_LEN, [n, 0, 0, 0], i);
    SetAt(x3, RING_B_LEN, [n, 0, 0, 0], i);
    SetAt(x4, ACTIVE, [1], i);
    SetAt(Set(x4, ACTIVE, [1]), DIRTY, [0], i);
  }

  /** After the body every byte of the copy is 0xff except the fields it commits: the header it was working on, with
      magic, chunk lists and chunk infos, is gone. */
  lemma SplitWipes(m: Mem, n: Byte, bump: Mem, i: nat)
    requires OntoItself(m, n) && |bump| <= 8 && i < |m|
    ensures Poked(m, SplitStores(m, n, bump))[i] == CommittedByte(n, i, 255)
  {
    var first := Pokes(DIRTY, [1]) + Pokes(RING_A, bump);
    var x := Poked(m, first);
    PokedAppend(m, first, Wipes(|m|, n) + Commit(n));
    PokedAppend(x, Wipes(|m|, n), Commit(n));
    WipesRun(x, n);
    CommitRun(Ones(|m|), n);
    CommittedAt(Ones(|m|), n, i);
  }

  lemma {:induction false} OnesNumber(m: Mem, at: nat)
    requires at + 4 <= |m| && forall i :: at <= i < at + 4 ==> m[i] == 255
    ensures Number(m, at, 4) == D.NULL_CHUNK
  {
    assert Number(m, at + 4, 0) == 0;
    assert Number(m, at + 3, 1) == 255;
    assert Number(m, at + 2, 2) == 255 + 256 * 255;
    assert Number(m, at + 1, 3) == 255 + 256 * (255 + 256 * 255);
  }

  lemma WipedSlot(m: Mem, n: Byte, bump: Mem, at: nat, r: Mem)
    requires OntoItself(m, n) && |bump| <= 8 && r == Poked(m, SplitStores(m, n, bump))
    requires CHUNKS_LEN + 4 <= at <= STATE || RING_B_LEN + 4 <= at <= STATE_B
    ensures Number(r, at, 4) == D.NULL_CHUNK
  {
    forall i: nat | at <= i < at + 4 ensures r[i] == 255 {
      SplitWipes(m, n, bump, i);
    }
    OnesNumber(r, at);
  }

  /** What the wiped copy reads as: neither list names any chunk. */
  lemma WipedLists(m: Mem, n: Byte, bump: Mem, k: nat)
    requires OntoItself(m, n) && |bump| <= 8 && k < D.SLOTS
    ensures var r := Poked(m, SplitStores(m, n, bump));
            SlotId(r, RING_A, k) == D.NULL_CHUNK && SlotId(r, SECONDARY, k) == D.NULL_CHUNK
  {
    WipedSlot(m, n, bump, RING_A + 28 + 8 * k, Poked(m, SplitStores(m, n, bump)));
    WipedSlot(m, n, bump, SECONDARY + 28 + 8 * k, Poked(m, SplitStores(m, n, bump)));
  }

  // ---------------------------------------------------------------- dying in it

  lemma {:induction false} ByteStays(m: Mem, ws: seq<Poke>, i: nat, v: Byte)
    requires i < |m| && m[i] == v && forall w :: w in ws && w.at == i ==> w.value == v
    ensures Poked(m, ws)[i] == v
  {
    if ws != [] {
      ByteStays(m, ws[..|ws| - 1], i, v);
    }
  }

  lemma {:induction false} WipesAre(len: nat, n: nat)
    requires 0 < len && 0 < n
    ensures var ws := Wipes(len, n);
            0 < |ws| && ws[0] == Poke(0, 255) && forall w :: w in ws ==> w.value == 255
  {
    if n != 1 {
      WipesAre(len, n - 1);
    } else {
      assert Wipes(len, 0) == [];
    }
  }

  lemma PokesMiss(dst: nat, bytes: Mem, i: nat)
    requires i < dst
    ensures forall w :: w in Pokes(dst, bytes) ==> w.at != i
  {
  }

  lemma CommitMisses(n: Byte)
    ensures forall w :: w in Commit(n) ==> w.at != 0
  {
    PokesMiss(SECONDARY, Zeros(8), 0);
    PokesMiss(RING_B_NEXT, Zeros(8), 0);
    PokesMiss(CHUNKS_LEN, [n, 0, 0, 0], 0);
    PokesMiss(RING_B_LEN, [n, 0, 0, 0], 0);
    PokesMiss(ACTIVE, [1], 0);
    PokesMiss(DIRTY, [0], 0);
  }

  /** From the first byte of the blanking on the copy has no magic. */
  lemma MagicGone(m: Mem, n: Byte, bump: Mem, k: nat)
    requires OntoItself(m, n) && |bump| <= 8 && 1 + |bump| < k <= |SplitStores(m, n, bump)|
    ensures Poked(m, SplitStores(m, n, bump)[..k])[0] == 255
  {
    var first, rest := Pokes(DIRTY, [1]) + Pokes(RING_A, bump), Wipes(|m|, n) + Commit(n);
    PokedSplit(m, first, rest, k);
    WipesAre(|m|, n);
    CommitMisses(n);
    StaysWiped(Poked(m, first), rest[..k - |first|]);
  }

  lemma StaysWiped(x: Mem, ws: seq<Poke>)
    requires 0 < |x| && ws != [] && ws[0] == Poke(0, 255) && forall w :: w in ws && w.at == 0 ==> w.value == 255
    ensures Poked(x, ws)[0] == 255
  {
    assert ws == [ws[0]] + ws[1..];
    PokedAppend(x, [ws[0]], ws[1..]);
    FirstWipe(x, ws[0]);
    ByteStays(Poked(x, [ws[0]]), ws[1..], 0, 255);
  }

  lemma FirstWipe(x: Mem, w: Poke)
    requires 0 < |x| && w == Poke(0, 255)
    ensures Poked(x, [w])[0] == 255
  {
    assert [w][..0] == [];
  }

  lemma NoMagic(x: Mem)
    requires 0 < |x| && x[0] == 255
    ensures !HasMagic(x, OLD_MAGIC) && !HasMagic(x, NEW_MAGIC)
  {
    if 8 <= |x| {
      assert x[..8][0] == 255;
    }
  }

  // ---------------------------------------------------------------- the next open

  /** What the constructor makes of the two copies: it stops, takes the pool for a new one, or loads them. */
  datatype Started = Refused | NewPool | Loaded(a: Mem, b: Mem)

  /** The magic is that of some other version. */
  predicate OtherVersion(m: Mem) {
    8 <= |m| && m[..5] == NEW_MAGIC[..5] && m[5..8] != NEW_MAGIC[5..]
  }

  /** `empty` says that no chunk of the pool holds data. */
  function Start(a: Mem, b: Mem, n: nat, empty: bool): Started
    requires |a| == |b| && RoomFor(a, n)
  {
    match Reopening.Reopen(a, b, n)
    case Abort => Refused
    case Open(x, y) =>
      if OtherVersion(x) then Refused
      else if HasMagic(x, NEW_MAGIC) then Loaded(x, y)
      else if empty then NewPool else Refused
  }

  /** With both magics gone the pool is never loaded again: it is refused, or taken for a new one. */
  lemma NeverLoaded(a: Mem, b: Mem, n: nat, empty: bool)
    requires |a| == |b| && RoomFor(a, n) && a[0] == 255 && b[0] == 255
    ensures Start(a, b, n, empty) == if empty then NewPool else Refused
  {
    NoMagic(a);
    NoMagic(b);
    assert a[..5][0] == 255;
  }

  /** The header of a migrated copy with the intent stamped into it. */
  lemma StampedOnto(m: Mem, n: nat, stamp: Mem, chunks: Byte)
    requires RoomFor(m, n) && |stamp| == 8 && 0 < chunks <= D.SLOTS
    ensures OntoItself(Set(Migrate(m, n), PENDING, stamp), chunks)
  {
    MigratedHeader(m, n);
    SameFront(Migrate(m, n), Set(Migrate(m, n), PENDING, stamp), chunks);
  }

  lemma SameFront(r: Mem, x: Mem, chunks: Byte)
    requires NEW_SIZE <= |r| == |x| && (forall i: nat :: i < PENDING ==> x[i] == r[i]) && OntoItself(r, chunks)
    ensures OntoItself(x, chunks)
  {
    forall k | 0 <= k < chunks as nat ensures SlotId(x, SECONDARY, k) == METADATA_CHUNK {
      assert SlotId(r, SECONDARY, k) == Header(r).secondaryRing().slots[k];
      SameNumber(r, x, SECONDARY + 28 + 8 * k, 4);
    }
  }

  /** Activating a migrated pool: whatever is stored afterwards anywhere but in the first byte, both copies are lost. */
  lemma MigratedPoolLost(m: Mem, n: nat, stamp: Mem, chunks: Byte, bump: Mem, later0: seq<Poke>, later1: seq<Poke>,
                         empty: bool)
    requires RoomFor(m, n) && |stamp| == 8 && 0 < chunks <= D.SLOTS && |bump| <= 8
    requires (forall w :: w in later0 ==> w.at != 0) && forall w :: w in later1 ==> w.at != 0
    ensures var x := Set(Migrate(m, n), PENDING, stamp);
            && OntoItself(x, chunks)
            && var y := Poked(x, SplitStores(x, chunks, bump));
               Start(Poked(y, later0), Poked(y, later1), n, empty) == if empty then NewPool else Refused
  {
    StampedOnto(m, n, stamp, chunks);
    var x := Set(Migrate(m, n), PENDING, stamp);
    var y := Poked(x, SplitStores(x, chunks, bump));
    SplitWipes(x, chunks, bump, 0);
    ByteStays(y, later0, 0, 255);
    ByteStays(y, later1, 0, 255);
    NeverLoaded(Poked(y, later0), Poked(y, later1), n, empty);
  }

  /** Dying inside the blanking of copy 0: the next open restores copy 0 from copy 1, header for header, so the pending
      activation is replayed on the same zero-filled list. */
  lemma RestoredMidway(a: Mem, b: Mem, n: nat, chunks: Byte, bump: Mem, k: nat, empty: bool)
    requires |a| == |b| && RoomFor(a, n) && OntoItself(a, chunks) && |bump| <= 8
    requires HasMagic(b, NEW_MAGIC) && !IsDirty(b)
    requires 1 + |bump| < k <= |SplitStores(a, chunks, bump)|
    ensures var r := Start(Poked(a, SplitStores(a, chunks, bump)[..k]), b, n, empty);
            r.Loaded? && r.b == b && NEW_SIZE <= |r.a| && r.a[..NEW_SIZE] == b[..NEW_SIZE]
  {
    var x := Poked(a, SplitStores(a, chunks, bump)[..k]);
    MagicGone(a, chunks, bump, k);
    NoMagic(x);
    var y := Reopening.DbCopy(x, b, n);
    CopiedHead(x, b, n);
    assert y[..8] == y[..NEW_SIZE][..8] == b[..NEW_SIZE][..8] == b[..8];
    assert y[DIRTY] == y[..NEW_SIZE][DIRTY] == b[DIRTY];
    SameVersion(y);
    SameVersion(b);
  }

  lemma CopiedHead(x: Mem, b: Mem, n: nat)
    requires |x| == |b| && NEW_SIZE + 8 * n <= |b|
    ensures |Reopening.DbCopy(x, b, n)| == |b| && Reopening.DbCopy(x, b, n)[..NEW_SIZE] == b[..NEW_SIZE]
  {
  }

  lemma SameVersion(x: Mem)
    requires HasMagic(x, NEW_MAGIC)
    ensures !OtherVersion(x) && !HasMagic(x, OLD_MAGIC)
  {
    assert x[5..8] == x[..8][5..] == NEW_MAGIC[5..];
    assert x[..8][7] != OLD_MAGIC[7];
  }
}
