/**
 Opening a pool whose two metadata copies may be on the old layout, dirty or half migrated:
 what comes out, and every byte store on the way, lowest address first.
 */
module Reopening {
  import opened Migration

  /** The length of the ring's chunk list, a 32-bit number, is below the new limit. */
  predicate FewChunks(m: Mem) {
    |m| > CHUNKS_LEN + 3 && m[CHUNKS_LEN] < 32 && m[CHUNKS_LEN + 1] == m[CHUNKS_LEN + 2] == m[CHUNKS_LEN + 3] == 0
  }

  datatype Opened = Abort | Open(a: Mem, b: Mem)

  // ---------------------------------------------------------------- copying a region

  /** Where the next version of each ring is stored. */
  const NEXT_A: nat := 32
  const NEXT_B: nat := 440

  /** The metadata region of one copy is copied to the other. */
  function DbCopy(dst: Mem, src: Mem, n: nat): Mem
    requires |dst| == |src| && NEW_SIZE + 8 * n <= |src|
  {
    Set(dst, 0, src[..NEW_SIZE + 8 * n])
  }

  /** The header as it is first copied: marked dirty, and with neither next version. */
  function Held(src: Mem): (h: Mem)
    requires NEW_SIZE <= |src|
    ensures |h| == NEW_SIZE
  {
    Set(Set(Set(src[..NEW_SIZE], DIRTY, [1]), NEXT_A, Zeros(8)), NEXT_B, Zeros(8))
  }

  /** Mark, hide the versions, copy. */
  function CopyIn(src: Mem, n: nat): seq<Poke>
    requires NEW_SIZE + 8 * n <= |src|
  {
    Pokes(DIRTY, [1]) + (Pokes(NEXT_A, Zeros(8)) + (Pokes(NEXT_B, Zeros(8)) +
    (Pokes(0, Held(src)) + Pokes(NEW_SIZE, src[NEW_SIZE..NEW_SIZE + 8 * n]))))
  }

  /** Show the versions. */
  function CopyOut(src: Mem): seq<Poke>
    requires NEW_SIZE <= |src|
  {
    Pokes(NEXT_A, src[NEXT_A..NEXT_A + 8]) + Pokes(NEXT_B, src[NEXT_B..NEXT_B + 8])
  }

  function DbCopyStores(src: Mem, n: nat): seq<Poke>
    requires NEW_SIZE + 8 * n <= |src|
  {
    CopyIn(src, n) + (CopyOut(src) + Pokes(DIRTY, [0]))
  }

  // ---------------------------------------------------------------- reopening

  function DirtyRestore(a: Mem, b: Mem, n: nat): Opened
    requires |a| == |b| && NEW_SIZE + 8 * n <= |a|
  {
    if !HasMagic(a, NEW_MAGIC) || !HasMagic(b, NEW_MAGIC) then Open(a, b)
    else if IsDirty(a) then if IsDirty(b) then Abort else Open(DbCopy(a, b, n), b)
    else if IsDirty(b) then Open(a, DbCopy(b, a, n))
    else Open(a, b)
  }

  function Healed(m: Mem, sibling: Mem): Mem {
    if IsDirty(m) then sibling else m
  }

  function Upgraded(m: Mem, n: nat): Mem
    requires RoomFor(m, n)
  {
    if HasMagic(m, OLD_MAGIC) then Migrate(m, n) else m
  }

  /** Heal a dirty copy from its sibling, then migrate each copy still on the old layout. */
  function HealAndMigrate(a: Mem, b: Mem, n: nat): (o: Opened)
    requires |a| == |b| && RoomFor(a, n)
    ensures o.Open? ==> |o.a| == |o.b| == |a|
  {
    if IsDirty(a) && IsDirty(b) then Abort
    else
      var a1 := Healed(a, b);
      var b1 := Healed(b, a1);
      if (HasMagic(a1, OLD_MAGIC) && !FewChunks(a1)) || (HasMagic(b1, OLD_MAGIC) && !FewChunks(b1)) then Abort
      else Open(Upgraded(a1, n), Upgraded(b1, n))
  }

  /** Copy 0 has lost its magic and copy 1 has the current one. */
  predicate FrontLost(a: Mem, b: Mem) {
    !HasMagic(a, NEW_MAGIC) && HasMagic(b, NEW_MAGIC)
  }

  /** Migrate if a copy is on the old layout, then restore. */
  function MigrateAndRestore(a: Mem, b: Mem, n: nat): Opened
    requires |a| == |b| && RoomFor(a, n)
  {
    if HasMagic(a, OLD_MAGIC) || HasMagic(b, OLD_MAGIC) then
      var o := HealAndMigrate(a, b, n);
      if o.Abort? then Abort else DirtyRestore(o.a, o.b, n)
    else DirtyRestore(a, b, n)
  }

  /** The part of the constructor that looks at the magic, migrates and restores. */
  function Reopen(a: Mem, b: Mem, n: nat): Opened
    requires |a| == |b| && RoomFor(a, n)
  {
    if FrontLost(a, b) && IsDirty(b) then Abort
    else MigrateAndRestore(if FrontLost(a, b) then DbCopy(a, b, n) else a, b, n)
  }

  // ---------------------------------------------------------------- the stores of reopening

  datatype Pair = Pair(a: Mem, b: Mem)

  /** A byte store to copy 0 or to copy 1. */
  datatype Store = A(poke: Poke) | B(poke: Poke)

  function RunPair(d: Pair, ss: seq<Store>): (r: Pair)
    ensures |r.a| == |d.a| && |r.b| == |d.b|
  {
    if ss == [] then d
    else
      var x := RunPair(d, ss[..|ss| - 1]);
      match ss[|ss| - 1]
      case A(w) => Pair(if w.at < |x.a| then x.a[w.at := w.value] else x.a, x.b)
      case B(w) => Pair(x.a, if w.at < |x.b| then x.b[w.at := w.value] else x.b)
  }

  function OnA(ws: seq<Poke>): (ss: seq<Store>)
    ensures |ss| == |ws|
  {
    if ws == [] then [] else OnA(ws[..|ws| - 1]) + [A(ws[|ws| - 1])]
  }

  function OnB(ws: seq<Poke>): (ss: seq<Store>)
    ensures |ss| == |ws|
  {
    if ws == [] then [] else OnB(ws[..|ws| - 1]) + [B(ws[|ws| - 1])]
  }

  function HealPokes(m: Mem, sibling: Mem): seq<Poke> {
    if IsDirty(m) then Pokes(0, sibling) else []
  }

  function HealStores(a: Mem, b: Mem): seq<Store> {
    OnA(HealPokes(a, b)) + OnB(HealPokes(b, Healed(a, b)))
  }

  function UpgradeStores(m: Mem, n: nat): seq<Poke>
    requires RoomFor(m, n)
  {
    if HasMagic(m, OLD_MAGIC) then MigrateStores(m, n) else []
  }

  function RestoreStores(a: Mem, b: Mem, n: nat): seq<Store>
    requires |a| == |b| && NEW_SIZE + 8 * n <= |a|
  {
    if !HasMagic(a, NEW_MAGIC) || !HasMagic(b, NEW_MAGIC) then []
    else if IsDirty(a) then OnA(DbCopyStores(b, n))
    else if IsDirty(b) then OnB(DbCopyStores(a, n))
    else []
  }

  function HealMigrateStores(a: Mem, b: Mem, n: nat): seq<Store>
    requires |a| == |b| && RoomFor(a, n)
  {
    var a1 := Healed(a, b);
    HealStores(a, b) + (OnA(UpgradeStores(a1, n)) + OnB(UpgradeStores(Healed(b, a1), n)))
  }

  function MigrateRestoreStores(a: Mem, b: Mem, n: nat): seq<Store>
    requires |a| == |b| && RoomFor(a, n)
  {
    if HasMagic(a, OLD_MAGIC) || HasMagic(b, OLD_MAGIC) then
      var a1 := Healed(a, b);
      HealMigrateStores(a, b, n) + RestoreStores(Upgraded(a1, n), Upgraded(Healed(b, a1), n), n)
    else RestoreStores(a, b, n)
  }

  /** Every byte store that opening the pair makes, in order, when no assertion stops it. */
  function ReopenStores(d: Pair, n: nat): seq<Store>
    requires |d.a| == |d.b| && RoomFor(d.a, n)
  {
    var lost := FrontLost(d.a, d.b);
    OnA(if lost then DbCopyStores(d.b, n) else []) +
      MigrateRestoreStores(if lost then DbCopy(d.a, d.b, n) else d.a, d.b, n)
  }

  /** The migration of a copy asserts, under its dirty mark, that the new layout has room for its chunks. */
  predicate TooMany(m: Mem) {
    HasMagic(m, OLD_MAGIC) && !FewChunks(m)
  }

  /** Copy 0 is stopped, or else copy 1. */
  function UpgradesStopped(a: Mem, n: nat): seq<Store>
    requires RoomFor(a, n)
  {
    if TooMany(a) then OnA(Pokes(DIRTY, [1])) else OnA(UpgradeStores(a, n)) + OnB(Pokes(DIRTY, [1]))
  }

  /** The stores of healing and migrating that are made before an assertion stops them. */
  function HealMigrateStopped(a: Mem, b: Mem, n: nat): seq<Store>
    requires |a| == |b| && RoomFor(a, n)
  {
    if IsDirty(a) && IsDirty(b) then []
    else
      var a1 := Healed(a, b);
      HealStores(a, b) + UpgradesStopped(a1, n)
  }

  function MigrateRestoreStopped(a: Mem, b: Mem, n: nat): seq<Store>
    requires |a| == |b| && RoomFor(a, n)
  {
    if !HasMagic(a, OLD_MAGIC) && !HasMagic(b, OLD_MAGIC) then []
    else if HealAndMigrate(a, b, n).Abort? then HealMigrateStopped(a, b, n)
    else HealMigrateStores(a, b, n)
  }

  /** Every byte store that opening the pair makes before an assertion stops it. */
  function ReopenStopped(d: Pair, n: nat): seq<Store>
    requires |d.a| == |d.b| && RoomFor(d.a, n)
  {
    var lost := FrontLost(d.a, d.b);
    if lost && IsDirty(d.b) then []
    else
      OnA(if lost then DbCopyStores(d.b, n) else []) +
      MigrateRestoreStopped(if lost then DbCopy(d.a, d.b, n) else d.a, d.b, n)
  }

  /** At most `k` of the stores are made. */
  function Cut(d: Pair, ss: seq<Store>, k: nat): (r: Pair)
    ensures |r.a| == |d.a| && |r.b| == |d.b|
  {
    RunPair(d, if k < |ss| then ss[..k] else ss)
  }

  /** An open that dies after `k` of its byte stores. */
  function Die(d: Pair, n: nat, k: nat): (r: Pair)
    requires |d.a| == |d.b| && RoomFor(d.a, n)
    ensures |r.a| == |r.b| == |d.a|
  {
    Cut(d, ReopenStores(d, n), k)
  }

  /** One open after the other dies. */
  function AfterDeaths(d: Pair, n: nat, ks: seq<nat>): (r: Pair)
    requires |d.a| == |d.b| && RoomFor(d.a, n)
    ensures |r.a| == |r.b| == |d.a|
  {
    if ks == [] then d else Die(AfterDeaths(d, n, ks[..|ks| - 1]), n, ks[|ks| - 1])
  }

  // ---------------------------------------------------------------- runs on the pair

  lemma {:induction false} RunPairAppend(d: Pair, xs: seq<Store>, ys: seq<Store>)
    ensures RunPair(d, xs + ys) == RunPair(RunPair(d, xs), ys)
  {
    if ys == [] {
      assert xs + ys == xs;
    } else {
      RunPairAppend(d, xs, ys[..|ys| - 1]);
      assert (xs + ys)[..|xs + ys| - 1] == xs + ys[..|ys| - 1];
    }
  }

  lemma {:induction false} RunOnA(d: Pair, ws: seq<Poke>)
    ensures RunPair(d, OnA(ws)) == Pair(Poked(d.a, ws), d.b)
  {
    if ws != [] {
      RunOnA(d, ws[..|ws| - 1]);
      assert OnA(ws)[..|ws| - 1] == OnA(ws[..|ws| - 1]);
    }
  }

  lemma {:induction false} RunOnB(d: Pair, ws: seq<Poke>)
    ensures RunPair(d, OnB(ws)) == Pair(d.a, Poked(d.b, ws))
  {
    if ws != [] {
      RunOnB(d, ws[..|ws| - 1]);
      assert OnB(ws)[..|ws| - 1] == OnB(ws[..|ws| - 1]);
    }
  }

  lemma WholePokes(ws: seq<Poke>, k: nat)
    requires k == |ws|
    ensures ws[..k] == ws
  {
  }

  /** A death while the stores go to copy 0. */
  lemma CutFirst(d: Pair, xs: seq<Poke>, ys: seq<Poke>, k: nat)
    requires k <= |xs|
    ensures Cut(d, OnA(xs) + OnB(ys), k) == Pair(Poked(d.a, xs[..k]), d.b)
  {
    TakeFirst(OnA(xs), OnB(ys), k);
    OnAPrefix(xs, k);
    RunOnA(d, xs[..k]);
  }

  lemma RunBoth(d: Pair, xs: seq<Poke>, ys: seq<Poke>)
    ensures RunPair(d, OnA(xs) + OnB(ys)) == Pair(Poked(d.a, xs), Poked(d.b, ys))
  {
    RunPairAppend(d, OnA(xs), OnB(ys));
    RunOnA(d, xs);
    RunOnB(Pair(Poked(d.a, xs), d.b), ys);
  }

  lemma {:induction false} OnAPrefix(ws: seq<Poke>, k: nat)
    requires k <= |ws|
    ensures OnA(ws)[..k] == OnA(ws[..k])
  {
    if k == |ws| {
      WholePokes(ws, k);
    } else {
      OnAPrefix(ws[..|ws| - 1], k);
      assert ws[..|ws| - 1][..k] == ws[..k];
    }
  }

  lemma {:induction false} OnBPrefix(ws: seq<Poke>, k: nat)
    requires k <= |ws|
    ensures OnB(ws)[..k] == OnB(ws[..k])
  {
    if k == |ws| {
      WholePokes(ws, k);
    } else {
      OnBPrefix(ws[..|ws| - 1], k);
      assert ws[..|ws| - 1][..k] == ws[..k];
    }
  }

  lemma TakeFirst(ps: seq<Store>, qs: seq<Store>, k: nat)
    requires k <= |ps|
    ensures (ps + qs)[..k] == ps[..k]
    ensures k == |ps + qs| ==> ps + qs == ps[..k]
  {
  }

  lemma TakeSecond(ps: seq<Store>, qs: seq<Store>, k: nat)
    requires k <= |qs|
    ensures (ps + qs)[..|ps| + k] == ps + qs[..k]
  {
  }

  lemma CutPrefix(d: Pair, ps: seq<Store>, qs: seq<Store>, k: nat)
    requires k < |qs|
    ensures Cut(d, ps + qs, |ps| + k) == RunPair(d, ps + qs[..k])
  {
    TakeSecond(ps, qs, k);
  }

  /** A death while the stores go to copy 1. */
  lemma CutInside(d: Pair, xs: seq<Poke>, ys: seq<Poke>, k: nat)
    requires k < |ys|
    ensures Cut(d, OnA(xs) + OnB(ys), |xs| + k) == Pair(Poked(d.a, xs), Poked(d.b, ys[..k]))
  {
    CutPrefix(d, OnA(xs), OnB(ys), k);
    OnBPrefix(ys, k);
    RunBoth(d, xs, ys[..k]);
  }

  /** A death after the last store. */
  lemma CutNothing(d: Pair, xs: seq<Poke>, ys: seq<Poke>, k: nat)
    requires |xs| + |ys| <= k
    ensures Cut(d, OnA(xs) + OnB(ys), k) == Pair(Poked(d.a, xs), Poked(d.b, ys))
  {
    RunBoth(d, xs, ys);
  }

  lemma CutBeyond(d: Pair, xs: seq<Poke>, ys: seq<Poke>, k: nat) returns (j: nat)
    requires |xs| <= k
    ensures j == (if k - |xs| < |ys| then k - |xs| else |ys|)
    ensures Cut(d, OnA(xs) + OnB(ys), k) == Pair(Poked(d.a, xs), Poked(d.b, ys[..j]))
  {
    if k - |xs| < |ys| {
      j := k - |xs|;
      CutInside(d, xs, ys, j);
    } else {
      j := |ys|;
      CutNothing(d, xs, ys, k);
      WholePokes(ys, j);
    }
  }

  // ---------------------------------------------------------------- copying a region, byte by byte

  lemma HeldAt(src: Mem, i: nat)
    requires NEW_SIZE <= |src| && i < NEW_SIZE
    ensures |Held(src)| == NEW_SIZE
    ensures Held(src)[i] == if i == DIRTY then 1 else if NEXT_A <= i < NEXT_A + 8
            || NEXT_B <= i < NEXT_B + 8 then 0 else src[i]
  {
    var h := src[..NEW_SIZE];
    SetAt(h, DIRTY, [1], i);
    SetAt(Set(h, DIRTY, [1]), NEXT_A, Zeros(8), i);
    SetAt(Set(Set(h, DIRTY, [1]), NEXT_A, Zeros(8)), NEXT_B, Zeros(8), i);
  }

  /** The memory once everything but the versions is copied. */
  function CopiedIn(x: Mem, src: Mem, n: nat): Mem
    requires |x| == |src| && NEW_SIZE + 8 * n <= |src|
  {
    Set(Set(Set(Set(Set(x, DIRTY, [1]), NEXT_A, Zeros(8)), NEXT_B, Zeros(8)), 0, Held(src)), NEW_SIZE,
        src[NEW_SIZE..NEW_SIZE + 8 * n])
  }

  lemma CopiedInAt(x: Mem, src: Mem, n: nat, i: nat)
    requires |x| == |src| && NEW_SIZE + 8 * n <= |src| && i < |x|
    ensures |CopiedIn(x, src, n)| == |x|
    ensures CopiedIn(x, src, n)[i] == if i < NEW_SIZE then Held(src)[i] else if i < NEW_SIZE + 8 * n then src[i]
            else x[i]
  {
    var x1 := Set(x, DIRTY, [1]);
    var x2 := Set(x1, NEXT_A, Zeros(8));
    var x3 := Set(x2, NEXT_B, Zeros(8));
    SetAt(x, DIRTY, [1], i);
    SetAt(x1, NEXT_A, Zeros(8), i);
    SetAt(x2, NEXT_B, Zeros(8), i);
    SetAt(x3, 0, Held(src), i);
    SetAt(Set(x3, 0, Held(src)), NEW_SIZE, src[NEW_SIZE..NEW_SIZE + 8 * n], i);
  }

  lemma CopyInRun(x: Mem, src: Mem, n: nat)
    requires |x| == |src| && NEW_SIZE + 8 * n <= |src|
    ensures Poked(x, CopyIn(src, n)) == CopiedIn(x, src, n)
  {
    var p1, p2, p3 := Pokes(DIRTY, [1]), Pokes(NEXT_A, Zeros(8)), Pokes(NEXT_B, Zeros(8));
    var p4, p5 := Pokes(0, Held(src)), Pokes(NEW_SIZE, src[NEW_SIZE..NEW_SIZE + 8 * n]);
    var x1 := Set(x, DIRTY, [1]);
    var x2 := Set(x1, NEXT_A, Zeros(8));
    var x3 := Set(x2, NEXT_B, Zeros(8));
    var x4 := Set(x3, 0, Held(src));
    PokesRun(x, DIRTY, [1]);
    PokesRun(x1, NEXT_A, Zeros(8));
    PokesRun(x2, NEXT_B, Zeros(8));
    PokesRun(x3, 0, Held(src));
    PokesRun(x4, NEW_SIZE, src[NEW_SIZE..NEW_SIZE + 8 * n]);
    PokedAppend(x, p1, p2 + (p3 + (p4 + p5)));
    PokedAppend(x1, p2, p3 + (p4 + p5));
    PokedAppend(x2, p3, p4 + p5);
    PokedAppend(x3, p4, p5);
  }

  lemma CopyOutRun(x: Mem, src: Mem)
    requires |x| == |src| && NEW_SIZE <= |src|
    ensures Poked(x, CopyOut(src) + Pokes(DIRTY, [0])) == CopiedOut(x, src)
  {
    var va, vb := src[NEXT_A..NEXT_A + 8], src[NEXT_B..NEXT_B + 8];
    PokesRun(x, NEXT_A, va);
    PokesRun(Set(x, NEXT_A, va), NEXT_B, vb);
    PokedAppend(x, Pokes(NEXT_A, va), Pokes(NEXT_B, vb));
    PokedAppend(x, CopyOut(src), Pokes(DIRTY, [0]));
    PokesRun(Set(Set(x, NEXT_A, va), NEXT_B, vb), DIRTY, [0]);
  }

  /** The memory once the versions are shown and the mark is lowered. */
  function CopiedOut(y: Mem, src: Mem): Mem
    requires |y| == |src| && NEW_SIZE <= |src|
  {
    Set(Set(Set(y, NEXT_A, src[NEXT_A..NEXT_A + 8]), NEXT_B, src[NEXT_B..NEXT_B + 8]), DIRTY, [0])
  }

  lemma CopiedOutAt(y: Mem, src: Mem, i: nat)
    requires |y| == |src| && NEW_SIZE <= |src| && i < |y|
    ensures |CopiedOut(y, src)| == |y|
    ensures CopiedOut(y, src)[i] ==
            if i == DIRTY then 0 else if NEXT_A <= i < NEXT_A + 8 || NEXT_B <= i < NEXT_B + 8 then src[i] else y[i]
  {
    var va, vb := src[NEXT_A..NEXT_A + 8], src[NEXT_B..NEXT_B + 8];
    SetAt(y, NEXT_A, va, i);
    SetAt(Set(y, NEXT_A, va), NEXT_B, vb, i);
    SetAt(Set(Set(y, NEXT_A, va), NEXT_B, vb), DIRTY, [0], i);
  }

  lemma DbCopyAt(x: Mem, src: Mem, n: nat, i: nat)
    requires |x| == |src| && NEW_SIZE + 8 * n <= |src| && !IsDirty(src) && i < |x|
    ensures |CopiedIn(x, src, n)| == |x| == |CopiedOut(CopiedIn(x, src, n), src)| == |DbCopy(x, src, n)|
    ensures CopiedOut(CopiedIn(x, src, n), src)[i] == DbCopy(x, src, n)[i]
  {
    CopiedInAt(x, src, n, i);
    CopiedOutAt(CopiedIn(x, src, n), src, i);
    if i < NEW_SIZE {
      HeldAt(src, i);
    }
    SetAt(x, 0, src[..NEW_SIZE + 8 * n], i);
  }

  /** Copying a clean region in this order ends with the region copied. */
  lemma DbCopyRun(x: Mem, src: Mem, n: nat)
    requires |x| == |src| && NEW_SIZE + 8 * n <= |src| && !IsDirty(src)
    ensures Poked(x, DbCopyStores(src, n)) == DbCopy(x, src, n)
  {
    var y := Poked(x, CopyIn(src, n));
    PokedAppend(x, CopyIn(src, n), CopyOut(src) + Pokes(DIRTY, [0]));
    CopyInRun(x, src, n);
    CopyOutRun(y, src);
    DbCopyAt(x, src, n, 0);
    forall i | 0 <= i < |x| ensures CopiedOut(y, src)[i] == DbCopy(x, src, n)[i] {
      DbCopyAt(x, src, n, i);
    }
  }

  /** A copy being overwritten: marked dirty, on the new layout, unchanged beyond it. */
  ghost predicate Holding(x: Mem, n: nat, y: Mem) {
    && |y| == |x| && NEW_SIZE + 8 * n <= |x| && HasMagic(y, NEW_MAGIC) && IsDirty(y)
    && (forall i: nat :: NEW_SIZE + 8 * n <= i < |x| ==> y[i] == x[i])
  }

  ghost predicate Holds(x: Mem, n: nat, y: Mem, ws: seq<Poke>) {
    forall k: nat :: k <= |ws| ==> Holding(x, n, Poked(y, ws[..k]))
  }

  lemma HoldsEnd(x: Mem, n: nat, y: Mem, ws: seq<Poke>)
    requires Holds(x, n, y, ws)
    ensures Holding(x, n, Poked(y, ws))
  {
    assert ws[..|ws|] == ws;
  }

  lemma HoldsAppend(x: Mem, n: nat, y: Mem, xs: seq<Poke>, ys: seq<Poke>)
    requires Holds(x, n, y, xs) && Holds(x, n, Poked(y, xs), ys)
    ensures Holds(x, n, y, xs + ys)
  {
    forall k: nat | k <= |xs + ys| ensures Holding(x, n, Poked(y, (xs + ys)[..k])) {
      PokedSplit(y, xs, ys, k);
    }
  }

  /** The bytes keep the magic and the dirty mark. */
  predicate Marks(dst: nat, bytes: Mem) {
    && (forall i: nat :: dst <= i < dst + |bytes| && i < 8 ==> bytes[i - dst] == NEW_MAGIC[i])
    && (dst <= DIRTY < dst + |bytes| ==> bytes[DIRTY - dst] != 0)
  }

  lemma HoldsSet(x: Mem, n: nat, y: Mem, dst: nat, bytes: Mem)
    requires Holding(x, n, y) && Marks(dst, bytes) && dst + |bytes| <= NEW_SIZE + 8 * n
    ensures Holds(x, n, y, Pokes(dst, bytes)) && Holding(x, n, Poked(y, Pokes(dst, bytes)))
  {
    forall k: nat | k <= |bytes| ensures Holding(x, n, Poked(y, Pokes(dst, bytes)[..k])) {
      PokesPrefix(y, dst, bytes, k);
      HoldingSet(x, n, y, dst, bytes, k);
    }
    HoldsEnd(x, n, y, Pokes(dst, bytes));
  }

  lemma HoldingSet(x: Mem, n: nat, y: Mem, dst: nat, bytes: Mem, k: nat)
    requires Holding(x, n, y) && Marks(dst, bytes) && dst + |bytes| <= NEW_SIZE + 8 * n && k <= |bytes|
    ensures Holding(x, n, Set(y, dst, bytes[..k]))
  {
    var z := Set(y, dst, bytes[..k]);
    forall i | 0 <= i < 8 ensures z[i] == NEW_MAGIC[i] {
      assert y[i] == y[..8][i];
      SetAt(y, dst, bytes[..k], i);
    }
    assert z[..8] == NEW_MAGIC;
  }

  lemma HeldMarks(src: Mem)
    requires NEW_SIZE <= |src| && HasMagic(src, NEW_MAGIC)
    ensures |Held(src)| == NEW_SIZE && Marks(0, Held(src))
  {
    HeldAt(src, DIRTY);
    forall i: nat | i < 8 ensures Held(src)[i] == NEW_MAGIC[i] {
      HeldAt(src, i);
      assert src[i] == src[..8][i];
    }
  }

  lemma CopyInHolds(x: Mem, src: Mem, n: nat)
    requires Holding(x, n, x) && |x| == |src| && HasMagic(src, NEW_MAGIC)
    ensures Holds(x, n, x, CopyIn(src, n))
  {
    var p1, p2, p3 := Pokes(DIRTY, [1]), Pokes(NEXT_A, Zeros(8)), Pokes(NEXT_B, Zeros(8));
    var p4, p5 := Pokes(0, Held(src)), Pokes(NEW_SIZE, src[NEW_SIZE..NEW_SIZE + 8 * n]);
    HoldsSet(x, n, x, DIRTY, [1]);
    var x1 := Poked(x, p1);
    HoldsSet(x, n, x1, NEXT_A, Zeros(8));
    var x2 := Poked(x1, p2);
    HoldsSet(x, n, x2, NEXT_B, Zeros(8));
    var x3 := Poked(x2, p3);
    HeldMarks(src);
    HoldsSet(x, n, x3, 0, Held(src));
    var x4 := Poked(x3, p4);
    HoldsSet(x, n, x4, NEW_SIZE, src[NEW_SIZE..NEW_SIZE + 8 * n]);
    HoldsAppend(x, n, x3, p4, p5);
    HoldsAppend(x, n, x2, p3, p4 + p5);
    HoldsAppend(x, n, x1, p2, p3 + (p4 + p5));
    HoldsAppend(x, n, x, p1, p2 + (p3 + (p4 + p5)));
  }

  lemma CopyOutHolds(x: Mem, n: nat, y: Mem, src: Mem)
    requires Holding(x, n, y) && |x| == |src|
    ensures Holds(x, n, y, CopyOut(src))
  {
    var va, vb := src[NEXT_A..NEXT_A + 8], src[NEXT_B..NEXT_B + 8];
    HoldsSet(x, n, y, NEXT_A, va);
    HoldsSet(x, n, Poked(y, Pokes(NEXT_A, va)), NEXT_B, vb);
    HoldsAppend(x, n, y, Pokes(NEXT_A, va), Pokes(NEXT_B, vb));
  }

  /** A dirty copy on the new layout stays one until the last store. */
  lemma DbCopyHolds(x: Mem, src: Mem, n: nat, k: nat)
    requires Holding(x, n, x) && |x| == |src| && HasMagic(src, NEW_MAGIC) && k < |DbCopyStores(src, n)|
    ensures Holding(x, n, Poked(x, DbCopyStores(src, n)[..k]))
  {
    var xs, ys, zs := CopyIn(src, n), CopyOut(src), Pokes(DIRTY, [0]);
    CopyInHolds(x, src, n);
    HoldsEnd(x, n, x, xs);
    CopyOutHolds(x, n, Poked(x, xs), src);
    HoldsAppend(x, n, x, xs, ys);
    PokesAssoc(xs, ys, zs);
    PokedSplit(x, xs + ys, zs, k);
  }

  lemma PokesAssoc(xs: seq<Poke>, ys: seq<Poke>, zs: seq<Poke>)
    ensures xs + (ys + zs) == (xs + ys) + zs
  {
  }

  // ---------------------------------------------------------------- the stores lead to the outcome

  lemma SetWhole(a: Mem, m: Mem)
    requires |a| == |m|
    ensures Set(a, 0, m) == m
  {
  }

  lemma HealDone(m: Mem, a: Mem)
    requires |a| == |m|
    ensures Poked(a, HealPokes(a, m)) == Healed(a, m)
  {
    if IsDirty(a) {
      PokesRun(a, 0, m);
      SetWhole(a, m);
    }
  }

  lemma HealRun(a: Mem, b: Mem)
    requires |a| == |b|
    ensures var a1 := Healed(a, b); RunPair(Pair(a, b), HealStores(a, b)) == Pair(a1, Healed(b, a1))
  {
    HealDone(b, a);
    HealDone(Healed(a, b), b);
    RunBoth(Pair(a, b), HealPokes(a, b), HealPokes(b, Healed(a, b)));
  }

  lemma UpgradeRun(a: Mem, b: Mem, n: nat)
    requires |a| == |b| && RoomFor(a, n)
    ensures RunPair(Pair(a, b), OnA(UpgradeStores(a, n)) + OnB(UpgradeStores(b, n)))
            == Pair(Upgraded(a, n), Upgraded(b, n))
  {
    RunBoth(Pair(a, b), UpgradeStores(a, n), UpgradeStores(b, n));
    MigrateRun(a, n);
    MigrateRun(b, n);
  }

  lemma RestoreRun(a: Mem, b: Mem, n: nat)
    requires |a| == |b| && NEW_SIZE + 8 * n <= |a| && DirtyRestore(a, b, n).Open?
    ensures var o := DirtyRestore(a, b, n); RunPair(Pair(a, b), RestoreStores(a, b, n)) == Pair(o.a, o.b)
  {
    if HasMagic(a, NEW_MAGIC) && HasMagic(b, NEW_MAGIC) {
      if IsDirty(a) {
        DbCopyRun(a, b, n);
        RunOnA(Pair(a, b), DbCopyStores(b, n));
      } else if IsDirty(b) {
        DbCopyRun(b, a, n);
        RunOnB(Pair(a, b), DbCopyStores(a, n));
      }
    }
  }

  lemma HealMigrateRun(a: Mem, b: Mem, n: nat)
    requires |a| == |b| && RoomFor(a, n) && HealAndMigrate(a, b, n).Open?
    ensures var o := HealAndMigrate(a, b, n); RunPair(Pair(a, b), HealMigrateStores(a, b, n)) == Pair(o.a, o.b)
  {
    var a1 := Healed(a, b);
    var b1 := Healed(b, a1);
    HealRun(a, b);
    UpgradeRun(a1, b1, n);
    RunPairAppend(Pair(a, b), HealStores(a, b), OnA(UpgradeStores(a1, n)) + OnB(UpgradeStores(b1, n)));
  }

  lemma MigrateRestoreRun(a: Mem, b: Mem, n: nat)
    requires |a| == |b| && RoomFor(a, n) && MigrateAndRestore(a, b, n).Open?
    ensures var o := MigrateAndRestore(a, b, n); RunPair(Pair(a, b), MigrateRestoreStores(a, b, n)) == Pair(o.a, o.b)
  {
    if HasMagic(a, OLD_MAGIC) || HasMagic(b, OLD_MAGIC) {
      var o := HealAndMigrate(a, b, n);
      HealMigrateRun(a, b, n);
      RestoreRun(o.a, o.b, n);
      RunPairAppend(Pair(a, b), HealMigrateStores(a, b, n), RestoreStores(o.a, o.b, n));
    } else {
      RestoreRun(a, b, n);
    }
  }

  /** Making all the stores of an open that is not stopped leads to its outcome. */
  lemma ReopenRun(d: Pair, n: nat)
    requires |d.a| == |d.b| && RoomFor(d.a, n) && Reopen(d.a, d.b, n).Open?
    ensures var o := Reopen(d.a, d.b, n); RunPair(d, ReopenStores(d, n)) == Pair(o.a, o.b)
  {
    var lost := FrontLost(d.a, d.b);
    var front, a0 := if lost then DbCopyStores(d.b, n) else [], if lost then DbCopy(d.a, d.b, n) else d.a;
    if lost {
      DbCopyRun(d.a, d.b, n);
    }
    RunOnA(d, front);
    MigrateRestoreRun(a0, d.b, n);
    RunPairAppend(d, OnA(front), MigrateRestoreStores(a0, d.b, n));
  }

  // ---------------------------------------------------------------- in place

  /** A dirty copy is overwritten with its sibling. */
  method Heal(m: array<Byte>, o: array<Byte>) returns (ghost ws: seq<Poke>)
    requires m != o && m.Length == o.Length
    modifies m
    ensures m[..] == Healed(old(m[..]), o[..]) && ws == HealPokes(old(m[..]), o[..])
  {
    ws := [];
    if m.Length > DIRTY && m[DIRTY] != 0 {
      ws := MemSet(m, 0, o[..]);
      SetWhole(old(m[..]), o[..]);
    }
  }

  /** The first part of copying a region: mark, hide the versions, copy. */
  method FillFrom(m: array<Byte>, src: Mem, n: nat) returns (ghost ws: seq<Poke>)
    requires m.Length == |src| && NEW_SIZE + 8 * n <= |src|
    modifies m
    ensures m[..] == CopiedIn(old(m[..]), src, n) && ws == CopyIn(src, n)
  {
    ghost var p := MemSet(m, DIRTY, [1]);
    ghost var q := MemSet(m, NEXT_A, Zeros(8));
    ghost var r := MemSet(m, NEXT_B, Zeros(8));
    ghost var s := MemSet(m, 0, Held(src));
    ghost var t := MemSet(m, NEW_SIZE, src[NEW_SIZE..NEW_SIZE + 8 * n]);
    ws := p + (q + (r + (s + t)));
  }

  /** The second part: show the versions, lower the mark. */
  method ShowFrom(m: array<Byte>, src: Mem) returns (ghost ws: seq<Poke>)
    requires m.Length == |src| && NEW_SIZE <= |src|
    modifies m
    ensures m[..] == CopiedOut(old(m[..]), src) && ws == CopyOut(src) + Pokes(DIRTY, [0])
  {
    ghost var p := MemSet(m, NEXT_A, src[NEXT_A..NEXT_A + 8]);
    ghost var q := MemSet(m, NEXT_B, src[NEXT_B..NEXT_B + 8]);
    ghost var r := MemSet(m, DIRTY, [0]);
    ws := p + q + r;
  }

  method RestoreFrom(m: array<Byte>, o: array<Byte>, n: nat) returns (ghost ws: seq<Poke>)
    requires m != o && m.Length == o.Length && NEW_SIZE + 8 * n <= m.Length && !IsDirty(o[..])
    modifies m
    ensures m[..] == DbCopy(old(m[..]), o[..], n) && ws == DbCopyStores(o[..], n)
  {
    var src := o[..];
    ghost var was := m[..];
    ghost var p := FillFrom(m, src, n);
    ghost var q := ShowFrom(m, src);
    ws := p + q;
    DbCopyRun(was, src, n);
    PokedAppend(was, p, q);
    CopyInRun(was, src, n);
    CopyOutRun(CopiedIn(was, src, n), src);
  }

  method Upgrade(m: array<Byte>, n: nat) returns (ok: bool, ghost ws: seq<Poke>)
    requires RoomFor(m[..], n)
    modifies m
    ensures ok <==> !TooMany(old(m[..]))
    ensures ok ==> m[..] == Upgraded(old(m[..]), n)
    ensures ws == if ok then UpgradeStores(old(m[..]), n) else Pokes(DIRTY, [1])
    ensures m[..] == Poked(old(m[..]), ws)
  {
    ok, ws := true, [];
    ghost var was := m[..];
    if HasMagic(m[..], OLD_MAGIC) {
      if !FewChunks(m[..]) {
        ws := MemSet(m, DIRTY, [1]);
        PokesRun(was, DIRTY, [1]);
        return false, ws;
      }
      ws := MigrateCopy(m, n);
      MigrateRun(was, n);
    }
  }

  method HealBoth(a: array<Byte>, b: array<Byte>, ghost d: Pair) returns (ghost ss: seq<Store>)
    requires a != b && a.Length == b.Length && d == Pair(a[..], b[..])
    modifies a, b
    ensures ss == HealStores(d.a, d.b) && Pair(a[..], b[..]) == RunPair(d, ss)
    ensures a[..] == Healed(d.a, d.b) && b[..] == Healed(d.b, Healed(d.a, d.b))
  {
    ghost var p := Heal(a, b);
    ghost var q := Heal(b, a);
    ss := OnA(p) + OnB(q);
    HealRun(d.a, d.b);
  }

  method UpgradeBoth(a: array<Byte>, b: array<Byte>, n: nat, ghost d: Pair) returns (ok: bool, ghost ss: seq<Store>)
    requires a != b && a.Length == b.Length && RoomFor(a[..], n) && d == Pair(a[..], b[..])
    modifies a, b
    ensures ok <==> !TooMany(d.a) && !TooMany(d.b)
    ensures ok ==> Pair(a[..], b[..]) == Pair(Upgraded(d.a, n), Upgraded(d.b, n))
    ensures ss == if ok then OnA(UpgradeStores(d.a, n)) + OnB(UpgradeStores(d.b, n)) else UpgradesStopped(d.a, n)
    ensures Pair(a[..], b[..]) == RunPair(d, ss)
  {
    ghost var r, s;
    ok, r := Upgrade(a, n);
    RunOnA(d, r);
    if !ok {
      return false, OnA(r);
    }
    ok, s := Upgrade(b, n);
    RunBoth(d, r, s);
    ss := OnA(r) + OnB(s);
  }

  /** Migration on open, in place. */
  method HealAndMigrateInPlace(a: array<Byte>, b: array<Byte>, n: nat, ghost d: Pair)
    returns (ok: bool, ghost ss: seq<Store>)
    requires a != b && a.Length == b.Length && RoomFor(a[..], n) && d == Pair(a[..], b[..])
    modifies a, b
    ensures HealAndMigrate(d.a, d.b, n) == if ok then Open(a[..], b[..]) else Abort
    ensures ss == if ok then HealMigrateStores(d.a, d.b, n) else HealMigrateStopped(d.a, d.b, n)
    ensures Pair(a[..], b[..]) == RunPair(d, ss)
  {
    if IsDirty(a[..]) && IsDirty(b[..]) {
      return false, [];
    }
    ghost var h := HealBoth(a, b, d);
    ghost var rest;
    ok, rest := UpgradeBoth(a, b, n, RunPair(d, h));
    RunPairAppend(d, h, rest);
    ss := h + rest;
  }

  method DirtyRestoreInPlace(a: array<Byte>, b: array<Byte>, n: nat, ghost d: Pair)
    returns (ok: bool, ghost ss: seq<Store>)
    requires a != b && a.Length == b.Length && NEW_SIZE + 8 * n <= a.Length && d == Pair(a[..], b[..])
    modifies a, b
    ensures DirtyRestore(d.a, d.b, n) == if ok then Open(a[..], b[..]) else Abort
    ensures ss == if ok then RestoreStores(d.a, d.b, n) else []
    ensures Pair(a[..], b[..]) == RunPair(d, ss)
  {
    ok, ss := true, [];
    if HasMagic(a[..], NEW_MAGIC) && HasMagic(b[..], NEW_MAGIC) {
      if IsDirty(a[..]) {
        if IsDirty(b[..]) {
          return false, [];
        }
        ghost var ws := RestoreFrom(a, b, n);
        ss := OnA(ws);
      } else if IsDirty(b[..]) {
        ghost var ws := RestoreFrom(b, a, n);
        ss := OnB(ws);
      }
    }
    RestoreRun(d.a, d.b, n);
  }

  method MigrateAndRestoreInPlace(a: array<Byte>, b: array<Byte>, n: nat, ghost d: Pair)
    returns (ok: bool, ghost ss: seq<Store>)
    requires a != b && a.Length == b.Length && RoomFor(a[..], n) && d == Pair(a[..], b[..])
    modifies a, b
    ensures MigrateAndRestore(d.a, d.b, n) == if ok then Open(a[..], b[..]) else Abort
    ensures ss == if ok then MigrateRestoreStores(d.a, d.b, n) else MigrateRestoreStopped(d.a, d.b, n)
    ensures Pair(a[..], b[..]) == RunPair(d, ss)
  {
    if HasMagic(a[..], OLD_MAGIC) || HasMagic(b[..], OLD_MAGIC) {
      ok, ss := MigrateThenRestore(a, b, n, d);
    } else {
      ok, ss := DirtyRestoreInPlace(a, b, n, d);
    }
  }

  method MigrateThenRestore(a: array<Byte>, b: array<Byte>, n: nat, ghost d: Pair)
    returns (ok: bool, ghost ss: seq<Store>)
    requires a != b && a.Length == b.Length && RoomFor(a[..], n) && d == Pair(a[..], b[..])
    requires HasMagic(d.a, OLD_MAGIC) || HasMagic(d.b, OLD_MAGIC)
    modifies a, b
    ensures MigrateAndRestore(d.a, d.b, n) == if ok then Open(a[..], b[..]) else Abort
    ensures ss == if ok then MigrateRestoreStores(d.a, d.b, n) else MigrateRestoreStopped(d.a, d.b, n)
    ensures Pair(a[..], b[..]) == RunPair(d, ss)
  {
    ghost var rest;
    ok, ss := HealAndMigrateInPlace(a, b, n, d);
    if ok {
      ghost var x := Pair(a[..], b[..]);
      MigrateThenStores(d, n, x);
      ok, rest := DirtyRestoreInPlace(a, b, n, x);
      RunPairAppend(d, ss, rest);
      ss := ss + rest;
    }
  }

  lemma MigrateThenStores(d: Pair, n: nat, x: Pair)
    requires |d.a| == |d.b| && RoomFor(d.a, n) && HealAndMigrate(d.a, d.b, n) == Open(x.a, x.b)
    requires HasMagic(d.a, OLD_MAGIC) || HasMagic(d.b, OLD_MAGIC)
    ensures |x.a| == |x.b| == |d.a| && MigrateAndRestore(d.a, d.b, n) == DirtyRestore(x.a, x.b, n)
    ensures MigrateRestoreStores(d.a, d.b, n) == HealMigrateStores(d.a, d.b, n) + RestoreStores(x.a, x.b, n)
    ensures MigrateRestoreStopped(d.a, d.b, n) == HealMigrateStores(d.a, d.b, n)
    ensures HealMigrateStores(d.a, d.b, n) + [] == HealMigrateStores(d.a, d.b, n)
  {
  }

  /** The constructor on the two mapped copies makes exactly the listed byte stores, also when an assertion stops it. */
  method ReopenInPlace(a: array<Byte>, b: array<Byte>, n: nat) returns (ok: bool, ghost ss: seq<Store>)
    requires a != b && a.Length == b.Length && RoomFor(a[..], n)
    modifies a, b
    ensures old(Reopen(a[..], b[..], n)) == if ok then Open(a[..], b[..]) else Abort
    ensures ss == if ok then old(ReopenStores(Pair(a[..], b[..]), n)) else old(ReopenStopped(Pair(a[..], b[..]), n))
    ensures Pair(a[..], b[..]) == RunPair(old(Pair(a[..], b[..])), ss)
  {
    ghost var d := Pair(a[..], b[..]);
    ghost var front, rest := [], [];
    if !HasMagic(a[..], NEW_MAGIC) && HasMagic(b[..], NEW_MAGIC) {
      if IsDirty(b[..]) {
        return false, [];
      }
      front := RestoreFrom(a, b, n);
      DbCopyRun(d.a, d.b, n);
    }
    RunOnA(d, front);
    ok, rest := MigrateAndRestoreInPlace(a, b, n, RunPair(d, OnA(front)));
    RunPairAppend(d, OnA(front), rest);
    ss := OnA(front) + rest;
  }
}
