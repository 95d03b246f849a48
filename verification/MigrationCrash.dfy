/**
 Dying while a pool is migrated or healed, any number of times.
 */
module MigrationCrash {
  import opened Migration
  import opened Reopening

  // ---------------------------------------------------------------- what migrating once more gives

  lemma MigratedFacts(m: Mem, n: nat)
    requires RoomFor(m, n)
    ensures HasMagic(Migrate(m, n), NEW_MAGIC) && !HasMagic(Migrate(m, n), OLD_MAGIC) && !IsDirty(Migrate(m, n))
    ensures forall i: nat :: NEW_SIZE + 8 * n <= i < |m| ==> Migrate(m, n)[i] == m[i]
  {
    var r := Migrate(m, n);
    forall i: nat | i < |m| ensures r[i] == Take(m, Actual(n, i)) {
      MigrateAt(m, n, i);
    }
    assert r[..8] == NEW_MAGIC;
    assert r[..8][7] != OLD_MAGIC[7];
  }

  /** Every byte that the migration reads is the same in both memories. */
  ghost predicate SourcesIntact(m: Mem, n: nat, x: Mem) {
    |x| == |m| && forall i: nat :: i < |m| && Actual(n, i).From? ==> SameByte(m, x, Actual(n, i).addr)
  }

  predicate SameByte(m: Mem, x: Mem, addr: nat) {
    addr < |m| == |x| && x[addr] == m[addr]
  }

  lemma SourcesIff(m: Mem, n: nat, x: Mem)
    requires RoomFor(m, n) && |x| == |m|
    ensures SourcesIntact(m, n, x) <==> Migrate(x, n) == Migrate(m, n)
  {
    forall i: nat | i < |m|
      ensures Actual(n, i).From? ==> Actual(n, i).addr < |m|
      ensures Migrate(x, n)[i] == Take(x, Actual(n, i)) && Migrate(m, n)[i] == Take(m, Actual(n, i))
    {
      MigrateAt(x, n, i);
      MigrateAt(m, n, i);
    }
  }

  /** Up to 65501 chunks the moves never overwrite what they read: migrating a copy left in the middle once more gives
      the same bytes. */
  lemma ReplayIdempotent(m: Mem, n: nat, x: Mem)
    requires RoomFor(m, n) && n <= 65501 && Kept(m, n, x)
    ensures Migrate(x, n) == Migrate(m, n) && SourcesIntact(m, n, x)
  {
    forall i: nat | i < |m| ensures Migrate(x, n)[i] == Migrate(m, n)[i] {
      MigrateAt(x, n, i);
      MigrateAt(m, n, i);
    }
    SourcesIff(m, n, x);
  }

  /** One chunk more and the moved chunk infos can overwrite the list heads. */
  lemma NotIdempotentBeyond(n: nat) returns (m: Mem, x: Mem)
    requires n > 65501
    ensures Kept(m, n, x) && Migrate(x, n) != Migrate(m, n)
  {
    m, x := Zeros(OLD_SIZE + 8 * n), Zeros(OLD_SIZE + 8 * n)[OLD_LISTS := 1];
    MigrateAt(m, n, LISTS);
    MigrateAt(x, n, LISTS);
    assert Migrate(x, n)[LISTS] != Migrate(m, n)[LISTS];
  }

  lemma ReplayIdempotentIff(n: nat)
    ensures (forall m, x :: Kept(m, n, x) ==> Migrate(x, n) == Migrate(m, n)) <==> n <= 65501
  {
    if n <= 65501 {
      forall m, x | Kept(m, n, x) ensures Migrate(x, n) == Migrate(m, n) {
        ReplayIdempotent(m, n, x);
      }
    } else {
      var m, x := NotIdempotentBeyond(n);
    }
  }

  lemma RestoreTorn(m: Mem, n: nat, x: Mem)
    requires RoomFor(m, n) && Holding(m, n, x)
    ensures DbCopy(x, Migrate(m, n), n) == Migrate(m, n)
  {
    MigratedFacts(m, n);
    var r := Migrate(m, n);
    forall i: nat | i < |m| ensures DbCopy(x, r, n)[i] == r[i] {
      SetAt(x, 0, r[..NEW_SIZE + 8 * n], i);
    }
  }

  // ---------------------------------------------------------------- the states a run goes through

  /** The pool before its migration. */
  predicate Before(m: Mem, n: nat) {
    RoomFor(m, n) && HasMagic(m, OLD_MAGIC) && !IsDirty(m) && FewChunks(m)
  }

  /** A clean copy on the old layout that migrates as the original would. */
  ghost predicate AsGood(m: Mem, n: nat, x: Mem) {
    Kept(m, n, x) && !IsDirty(x) && HasMagic(x, OLD_MAGIC) && SourcesIntact(m, n, x)
  }

  /** A copy 1 that will be overwritten from copy 0: half healed or half migrated. */
  ghost predicate Loose(m: Mem, n: nat, x: Mem) {
    && |x| == |m| && IsDirty(x) && (HasMagic(x, OLD_MAGIC) || HasMagic(x, NEW_MAGIC))
    && (forall i: nat :: NEW_SIZE + 8 * n <= i < |m| ==> x[i] == m[i])
  }

  /** Copy 0 is not through, and copy 1 has not been touched. */
  ghost predicate FirstHalf(m: Mem, n: nat, d: Pair) {
    d.b == m && (Torn(m, n, d.a) || AsGood(m, n, d.a))
  }

  /** Copy 0 is through. */
  ghost predicate SecondHalf(m: Mem, n: nat, d: Pair)
    requires RoomFor(m, n)
  {
    d.a == Migrate(m, n) && (d.b == m || Loose(m, n, d.b) || d.b == Migrate(m, n))
  }

  ghost predicate Good(m: Mem, n: nat, d: Pair)
    requires RoomFor(m, n)
  {
    FirstHalf(m, n, d) || SecondHalf(m, n, d)
  }

  lemma NotBoth(x: Mem)
    ensures !(HasMagic(x, OLD_MAGIC) && HasMagic(x, NEW_MAGIC))
  {
    if HasMagic(x, OLD_MAGIC) {
      assert x[..8][7] != NEW_MAGIC[7];
    }
  }

  lemma KeptFew(m: Mem, n: nat, x: Mem)
    requires FewChunks(m) && Kept(m, n, x)
    ensures FewChunks(x)
  {
  }

  /** Opening a good pair completes the migration. */
  lemma GoodOpens(m: Mem, n: nat, d: Pair)
    requires Before(m, n) && Good(m, n, d)
    ensures |d.a| == |d.b| == |m| && Reopen(d.a, d.b, n) == Open(Migrate(m, n), Migrate(m, n))
  {
    MigratedFacts(m, n);
    NotBoth(d.a);
    NotBoth(d.b);
    NotBoth(m);
    if FirstHalf(m, n, d) {
      if AsGood(m, n, d.a) {
        KeptFew(m, n, d.a);
        SourcesIff(m, n, d.a);
      }
    } else if Loose(m, n, d.b) && HasMagic(d.b, NEW_MAGIC) {
      RestoreTorn(m, n, d.b);
    }
  }

  // ---------------------------------------------------------------- the stores in each state

  lemma {:induction false} OnAAppend(xs: seq<Poke>, ys: seq<Poke>)
    ensures OnA(xs + ys) == OnA(xs) + OnA(ys)
  {
    if ys == [] {
      assert xs + ys == xs;
    } else {
      OnAAppend(xs, ys[..|ys| - 1]);
      assert (xs + ys)[..|xs + ys| - 1] == xs + ys[..|ys| - 1];
    }
  }

  lemma Flat(p: seq<Store>, q: seq<Store>, r: seq<Store>, s: seq<Store>)
    ensures [] + (((p + q) + (r + s)) + []) == p + q + r + s
    ensures p + [] + r + s == (p + r) + s
    ensures [] + q + [] + [] == [] + q
    ensures [] + [] + r + s == r + s
  {
  }

  lemma FirstHalfStores(m: Mem, n: nat, d: Pair)
    requires Before(m, n) && FirstHalf(m, n, d)
    ensures ReopenStores(d, n) == OnA(HealPokes(d.a, m) + MigrateStores(Healed(d.a, m), n)) + OnB(MigrateStores(m, n))
  {
    NotBoth(m);
    NotBoth(d.a);
    var a1 := Healed(d.a, m);
    MigratedFacts(m, n);
    MigratedFacts(a1, n);
    var heal, mig := HealPokes(d.a, m), MigrateStores(a1, n);
    Flat(OnA(heal), [], OnA(mig), OnB(MigrateStores(m, n)));
    OnAAppend(heal, mig);
  }

  /** What opening stores to copy 1 once copy 0 is through. */
  function LastStores(d: Pair, n: nat): seq<Poke>
    requires |d.a| == |d.b| && RoomFor(d.a, n)
  {
    if HasMagic(d.b, OLD_MAGIC) then if IsDirty(d.b) then Pokes(0, d.a) else MigrateStores(d.b, n)
    else if IsDirty(d.b) then DbCopyStores(d.a, n)
    else []
  }

  lemma SecondHalfStores(m: Mem, n: nat, d: Pair)
    requires Before(m, n) && SecondHalf(m, n, d)
    ensures ReopenStores(d, n) == OnA([]) + OnB(LastStores(d, n))
  {
    NotBoth(d.b);
    MigratedFacts(m, n);
    if HasMagic(d.b, OLD_MAGIC) {
      if IsDirty(d.b) {
        Flat([], OnB(Pokes(0, d.a)), [], []);
      } else {
        Flat([], [], [], OnB(MigrateStores(m, n)));
      }
    }
  }

  // ---------------------------------------------------------------- half-done overwriting

  /** The first `k` bytes of `x` have been replaced by those of `src`. */
  lemma Overwrite(x: Mem, src: Mem, k: nat)
    requires |x| == |src| && k <= |x|
    ensures Poked(x, Pokes(0, src)[..k]) == src[..k] + x[k..] == Set(x, 0, src[..k])
  {
    PokesPrefix(x, 0, src, k);
    SetFront(x, src[..k]);
  }

  lemma SetFront(x: Mem, bytes: Mem)
    requires |bytes| <= |x|
    ensures Set(x, 0, bytes) == bytes + x[|bytes|..]
  {
    assert x[..0] == [];
  }

  lemma MixedMagic(x: Mem, src: Mem, k: nat)
    requires |x| == |src| && 16 <= |x| && k <= |x|
    requires HasMagic(x, OLD_MAGIC) || HasMagic(x, NEW_MAGIC)
    requires HasMagic(src, OLD_MAGIC) || HasMagic(src, NEW_MAGIC)
    ensures (src[..k] + x[k..])[..8] == if k < 8 then x[..8] else src[..8]
  {
    var y := src[..k] + x[k..];
    forall i | 0 <= i < 8 ensures y[i] == if k < 8 then x[i] else src[i] {
      assert x[i] == x[..8][i] && src[i] == src[..8][i];
    }
    assert y[..8] == if k < 8 then x[..8] else src[..8];
  }

  /** Healing copy 0, interrupted: for 16 bytes it is still marked dirty, after that it passes for clean. */
  lemma HealFirst(m: Mem, n: nat, x: Mem, k: nat)
    requires Before(m, n) && Torn(m, n, x) && k <= |m|
    ensures var y := m[..k] + x[k..];
            && Kept(m, n, y)
            && (k < 16 ==> Torn(m, n, y))
            && (16 <= k ==> !IsDirty(y) && HasMagic(y, OLD_MAGIC))
  {
    MixedMagic(x, m, k);
  }

  /** Healing copy 1, interrupted. */
  lemma HealSecond(m: Mem, n: nat, x: Mem, k: nat)
    requires Before(m, n) && Loose(m, n, x) && k <= |m|
    ensures var r := Migrate(m, n);
            var y := r[..k] + x[k..];
            && (k < 16 ==> Loose(m, n, y))
            && (16 <= k ==> !IsDirty(y) && HasMagic(y, NEW_MAGIC) && (y == r <==> x[k..] == r[k..]))
  {
    MigratedFacts(m, n);
    MixedMagic(x, Migrate(m, n), k);
    SameRest(x, Migrate(m, n), k);
  }

  lemma SameRest(x: Mem, r: Mem, k: nat)
    requires |x| == |r| && k <= |x|
    ensures r[..k] + x[k..] == r <==> x[k..] == r[k..]
  {
    assert r == r[..k] + r[k..];
    assert (r[..k] + x[k..])[k..] == x[k..];
  }

  // ---------------------------------------------------------------- one death

  /** Dying after `k` bytes of healing leaves a copy that passes for clean and is not: copy 0 when a byte its migration
      reads is not yet replaced, copy 1 when any byte is not. */
  ghost predicate Spoils(d: Pair, n: nat, k: nat) {
    && 16 <= k < |d.a| == |d.b|
    && (|| (IsDirty(d.a) && HasMagic(d.b, OLD_MAGIC) && !SourcesIntact(d.b, n, d.b[..k] + d.a[k..]))
        || (!IsDirty(d.a) && HasMagic(d.a, NEW_MAGIC) && IsDirty(d.b) && HasMagic(d.b, OLD_MAGIC)
            && d.a[k..] != d.b[k..]))
  }

  /** Migrating copy 0, interrupted or not. */
  lemma MigratingFirst(m: Mem, n: nat, x: Mem, k: nat)
    requires Before(m, n) && AsGood(m, n, x) && k <= |MigrateStores(x, n)|
    ensures Good(m, n, Pair(Poked(x, MigrateStores(x, n)[..k]), m))
  {
    if k == |MigrateStores(x, n)| {
      WholePokes(MigrateStores(x, n), k);
      MigrateRun(x, n);
      SourcesIff(m, n, x);
    } else if k != 0 {
      MigrateTorn(x, n, k);
    }
  }

  /** Migrating copy 1, interrupted or not. */
  lemma MigratingSecond(m: Mem, n: nat, k: nat)
    requires Before(m, n) && k <= |MigrateStores(m, n)|
    ensures SecondHalf(m, n, Pair(Migrate(m, n), Poked(m, MigrateStores(m, n)[..k])))
  {
    if k == |MigrateStores(m, n)| {
      WholePokes(MigrateStores(m, n), k);
      MigrateRun(m, n);
    } else if k != 0 {
      MigrateTorn(m, n, k);
    }
  }

  /** The stores to copy 0 of a pair in the first half. */
  function FirstStores(m: Mem, n: nat, a: Mem): seq<Poke>
    requires RoomFor(m, n) && |a| == |m|
  {
    HealPokes(a, m) + MigrateStores(Healed(a, m), n)
  }

  lemma FirstCopyDone(m: Mem, n: nat, a: Mem)
    requires Before(m, n) && FirstHalf(m, n, Pair(a, m))
    ensures Poked(a, FirstStores(m, n, a)) == Migrate(m, n)
  {
    var heal, a1 := HealPokes(a, m), Healed(a, m);
    PokedAppend(a, heal, MigrateStores(a1, n));
    HealDone(m, a);
    MigrateRun(a1, n);
    if AsGood(m, n, a) {
      SourcesIff(m, n, a);
    }
  }

  lemma SplitAfter(a: Mem, xs: seq<Poke>, ys: seq<Poke>, k: nat, a1: Mem)
    requires |xs| <= k <= |xs| + |ys| && a1 == Poked(a, xs)
    ensures Poked(a, (xs + ys)[..k]) == Poked(a1, ys[..k - |xs|])
  {
    PokedSplit(a, xs, ys, k);
  }

  lemma SpoiledFirst(m: Mem, n: nat, y: Mem)
    requires Before(m, n) && Kept(m, n, y) && !IsDirty(y) && HasMagic(y, OLD_MAGIC) && !SourcesIntact(m, n, y)
    ensures Reopen(y, m, n) == Open(Migrate(y, n), Migrate(m, n)) != Open(Migrate(m, n), Migrate(m, n))
  {
    NotBoth(m);
    NotBoth(y);
    KeptFew(m, n, y);
    MigratedFacts(m, n);
    MigratedFacts(y, n);
    SourcesIff(m, n, y);
  }

  /** What one death does to a pair. */
  ghost predicate Exact(m: Mem, n: nat, d: Pair, k: nat, e: Pair)
    requires RoomFor(m, n) && |e.a| == |e.b| && RoomFor(e.a, n)
  {
    if Spoils(d, n, k) then Reopen(e.a, e.b, n) != Open(Migrate(m, n), Migrate(m, n)) else Good(m, n, e)
  }

  lemma StepHealing(m: Mem, n: nat, a: Mem, k: nat)
    requires Before(m, n) && Torn(m, n, a) && k < |m|
    ensures Exact(m, n, Pair(a, m), k, Pair(Poked(a, FirstStores(m, n, a)[..k]), m))
  {
    PokedSplit(a, Pokes(0, m), MigrateStores(m, n), k);
    Overwrite(a, m, k);
    HealFirst(m, n, a, k);
    NotBoth(m);
    var y := m[..k] + a[k..];
    if Spoils(Pair(a, m), n, k) {
      SpoiledFirst(m, n, y);
    }
  }

  lemma StepMigrating(m: Mem, n: nat, a: Mem, k: nat)
    requires Before(m, n) && FirstHalf(m, n, Pair(a, m)) && (IsDirty(a) ==> |m| <= k) && k <= |FirstStores(m, n, a)|
    ensures Good(m, n, Pair(Poked(a, FirstStores(m, n, a)[..k]), m))
  {
    HealDone(m, a);
    HealedGood(m, n, a);
    AfterHealing(m, n, a, k, HealPokes(a, m), Healed(a, m));
  }

  lemma HealedGood(m: Mem, n: nat, a: Mem)
    requires Before(m, n) && FirstHalf(m, n, Pair(a, m))
    ensures AsGood(m, n, Healed(a, m))
  {
    SourcesIff(m, n, m);
  }

  lemma AfterHealing(m: Mem, n: nat, a: Mem, k: nat, heal: seq<Poke>, a1: Mem)
    requires Before(m, n) && AsGood(m, n, a1) && Poked(a, heal) == a1 && |heal| <= k <= |heal + MigrateStores(a1, n)|
    ensures Good(m, n, Pair(Poked(a, (heal + MigrateStores(a1, n))[..k]), m))
  {
    SplitAfter(a, heal, MigrateStores(a1, n), k, a1);
    MigratingFirst(m, n, a1, k - |heal|);
  }

  lemma StepFirst(m: Mem, n: nat, d: Pair, k: nat)
    requires Before(m, n) && FirstHalf(m, n, d)
    ensures Exact(m, n, d, k, Die(d, n, k))
  {
    NotBoth(d.a);
    NotBoth(m);
    FirstHalfStores(m, n, d);
    var xs, ys := FirstStores(m, n, d.a), MigrateStores(m, n);
    if k <= |xs| {
      CutFirst(d, xs, ys, k);
      if IsDirty(d.a) && k < |m| {
        StepHealing(m, n, d.a, k);
      } else {
        StepMigrating(m, n, d.a, k);
      }
    } else {
      StepBeyond(m, n, d, k, xs, ys);
    }
  }

  lemma StepBeyond(m: Mem, n: nat, d: Pair, k: nat, xs: seq<Poke>, ys: seq<Poke>)
    requires Before(m, n) && FirstHalf(m, n, d) && xs == FirstStores(m, n, d.a) && ys == MigrateStores(m, n) && |xs| < k
    ensures SecondHalf(m, n, Cut(d, OnA(xs) + OnB(ys), k)) && (IsDirty(d.a) ==> |m| <= |xs|)
  {
    FirstCopyDone(m, n, d.a);
    var j := CutBeyond(d, xs, ys, k);
    MigratingSecond(m, n, j);
  }

  lemma SpoiledSecond(m: Mem, n: nat, y: Mem)
    requires Before(m, n) && |y| == |m| && !IsDirty(y) && HasMagic(y, NEW_MAGIC)
    ensures Reopen(Migrate(m, n), y, n) == Open(Migrate(m, n), y) && ReopenStores(Pair(Migrate(m, n), y), n) == []
  {
    MigratedFacts(m, n);
    NotBoth(y);
  }

  /** Copy 1 under way once copy 0 is through. */
  lemma LastPrefix(m: Mem, n: nat, b: Mem, k: nat)
    requires Before(m, n) && SecondHalf(m, n, Pair(Migrate(m, n), b)) && k <= |LastStores(Pair(Migrate(m, n), b), n)|
    ensures var r := Migrate(m, n);
            var d := Pair(r, b);
            Exact(m, n, d, k, Pair(r, Poked(b, LastStores(d, n)[..k])))
  {
    var r := Migrate(m, n);
    NotBoth(b);
    NotBoth(m);
    MigratedFacts(m, n);
    if HasMagic(b, OLD_MAGIC) {
      if IsDirty(b) {
        LastHealing(m, n, b, k);
      } else {
        MigratingSecond(m, n, k);
      }
    } else if IsDirty(b) {
      LastCopying(m, n, b, k);
    }
  }

  lemma LastHealing(m: Mem, n: nat, b: Mem, k: nat)
    requires Before(m, n) && Loose(m, n, b) && HasMagic(b, OLD_MAGIC) && k <= |m|
    ensures var r := Migrate(m, n); Exact(m, n, Pair(r, b), k, Pair(r, Poked(b, Pokes(0, r)[..k])))
  {
    var r := Migrate(m, n);
    MigratedFacts(m, n);
    Overwrite(b, r, k);
    HealSecond(m, n, b, k);
    if 16 <= k {
      SpoiledSecond(m, n, r[..k] + b[k..]);
    }
  }

  lemma LastCopying(m: Mem, n: nat, b: Mem, k: nat)
    requires Before(m, n) && Loose(m, n, b) && HasMagic(b, NEW_MAGIC) && k <= |DbCopyStores(Migrate(m, n), n)|
    ensures SecondHalf(m, n, Pair(Migrate(m, n), Poked(b, DbCopyStores(Migrate(m, n), n)[..k])))
  {
    var r := Migrate(m, n);
    MigratedFacts(m, n);
    if k == |DbCopyStores(r, n)| {
      WholePokes(DbCopyStores(r, n), k);
      DbCopyRun(b, r, n);
      RestoreTorn(m, n, b);
    } else {
      DbCopyHolds(b, r, n, k);
    }
  }

  lemma SecondDeath(m: Mem, n: nat, d: Pair, k: nat) returns (j: nat)
    requires Before(m, n) && SecondHalf(m, n, d)
    ensures var all := |LastStores(d, n)|; j == if k < all then k else all
    ensures Die(d, n, k) == Pair(d.a, Poked(d.b, LastStores(d, n)[..j]))
  {
    SecondHalfStores(m, n, d);
    j := CutLast(d, ReopenStores(d, n), LastStores(d, n), k);
  }

  lemma CutLast(d: Pair, ss: seq<Store>, ys: seq<Poke>, k: nat) returns (j: nat)
    requires ss == OnA([]) + OnB(ys)
    ensures j == if k < |ys| then k else |ys|
    ensures Cut(d, ss, k) == Pair(d.a, Poked(d.b, ys[..j]))
  {
    j := CutBeyond(d, [], ys, k);
  }

  lemma StepSecond(m: Mem, n: nat, d: Pair, k: nat)
    requires Before(m, n) && SecondHalf(m, n, d)
    ensures Exact(m, n, d, k, Die(d, n, k))
  {
    var j := SecondDeath(m, n, d, k);
    LastPrefix(m, n, d.b, j);
    SameSpoil(m, n, d, k, j);
  }

  /** Dying after the last store spoils nothing. */
  lemma SameSpoil(m: Mem, n: nat, d: Pair, k: nat, j: nat)
    requires Before(m, n) && SecondHalf(m, n, d)
    requires var all := |LastStores(d, n)|; j == if k < all then k else all
    ensures Spoils(d, n, k) == Spoils(d, n, j)
  {
    MigratedFacts(m, n);
  }

  /** One death of an open on a good pair: unless it spoils the healing, the pair is still good; if it does, the next
      open does not end with both copies migrated. */
  lemma OneDeath(m: Mem, n: nat, d: Pair, k: nat)
    requires Before(m, n) && Good(m, n, d)
    ensures Exact(m, n, d, k, Die(d, n, k))
  {
    if FirstHalf(m, n, d) {
      StepFirst(m, n, d, k);
    } else {
      StepSecond(m, n, d, k);
    }
  }

  // ---------------------------------------------------------------- whole runs

  /** None of the deaths spoils a healing. */
  ghost predicate Unspoiled(m: Mem, n: nat, ks: seq<nat>)
    requires RoomFor(m, n)
  {
    ks == [] || (&& Unspoiled(m, n, ks[..|ks| - 1])
                 && !Spoils(AfterDeaths(Pair(m, m), n, ks[..|ks| - 1]), n, ks[|ks| - 1]))
  }

  lemma Start(m: Mem, n: nat)
    requires Before(m, n)
    ensures Good(m, n, Pair(m, m)) && forall k :: !Spoils(Pair(m, m), n, k)
  {
    SourcesIff(m, n, m);
  }

  lemma {:induction false} UnspoiledRun(m: Mem, n: nat, ks: seq<nat>)
    requires Before(m, n) && Unspoiled(m, n, ks)
    ensures Good(m, n, AfterDeaths(Pair(m, m), n, ks))
  {
    if ks == [] {
      Start(m, n);
    } else {
      UnspoiledRun(m, n, ks[..|ks| - 1]);
      OneDeath(m, n, AfterDeaths(Pair(m, m), n, ks[..|ks| - 1]), ks[|ks| - 1]);
    }
  }

  /** A clean pool whose migration dies after any byte store: opening it again ends as an uninterrupted migration. */
  lemma OneCrash(m: Mem, n: nat, k: nat)
    requires Before(m, n)
    ensures var d := Die(Pair(m, m), n, k); Reopen(d.a, d.b, n) == Open(Migrate(m, n), Migrate(m, n))
  {
    Start(m, n);
    OneDeath(m, n, Pair(m, m), k);
    GoodOpens(m, n, Die(Pair(m, m), n, k));
  }

  /** Two deaths, for any number of chunks: the migration is completed exactly when the second one does not spoil a
      healing. */
  lemma TwoCrashesIff(m: Mem, n: nat, k: nat, j: nat)
    requires Before(m, n)
    ensures var d := Die(Pair(m, m), n, k);
            var e := Die(d, n, j);
            Reopen(e.a, e.b, n) == Open(Migrate(m, n), Migrate(m, n)) <==> !Spoils(d, n, j)
  {
    Start(m, n);
    OneDeath(m, n, Pair(m, m), k);
    var d := Die(Pair(m, m), n, k);
    OneDeath(m, n, d, j);
    if !Spoils(d, n, j) {
      GoodOpens(m, n, Die(d, n, j));
    }
  }

  /** Copy 1 passes for clean and is not. */
  predicate Passed(m: Mem, n: nat, d: Pair)
    requires RoomFor(m, n)
  {
    && d.a == Migrate(m, n) && |d.b| == |m| && !IsDirty(d.b) && HasMagic(d.b, NEW_MAGIC) && d.b != Migrate(m, n)
  }

  /** No later open notices. */
  lemma PassedStays(m: Mem, n: nat, d: Pair, k: nat)
    requires Before(m, n) && Passed(m, n, d)
    ensures Die(d, n, k) == d && !Spoils(d, n, k) && Reopen(d.a, d.b, n) == Open(d.a, d.b)
  {
    SpoiledSecond(m, n, d.b);
    MigratedFacts(m, n);
  }

  lemma FirstHalfSafe(m: Mem, n: nat, d: Pair, k: nat)
    requires Before(m, n) && n <= 65501 && FirstHalf(m, n, d)
    ensures !Spoils(d, n, k)
  {
    NotBoth(d.a);
    if IsDirty(d.a) && k < |m| {
      HealFirst(m, n, d.a, k);
      ReplayIdempotent(m, n, m[..k] + d.a[k..]);
    }
  }

  lemma SpoiledPasses(m: Mem, n: nat, d: Pair, k: nat)
    requires Before(m, n) && SecondHalf(m, n, d) && Spoils(d, n, k)
    ensures Die(d, n, k) == Pair(d.a, d.a[..k] + d.b[k..]) && Passed(m, n, Die(d, n, k))
  {
    MigratedFacts(m, n);
    NotBoth(m);
    var j := SecondDeath(m, n, d, k);
    Overwrite(d.b, d.a, k);
    HealSecond(m, n, d.b, k);
  }

  lemma {:induction false} AnyRun(m: Mem, n: nat, ks: seq<nat>)
    requires Before(m, n) && n <= 65501
    ensures var d := AfterDeaths(Pair(m, m), n, ks); if Unspoiled(m, n, ks) then Good(m, n, d) else Passed(m, n, d)
  {
    if ks == [] {
      Start(m, n);
    } else {
      var rest, k := ks[..|ks| - 1], ks[|ks| - 1];
      var d := AfterDeaths(Pair(m, m), n, rest);
      AnyRun(m, n, rest);
      if !Unspoiled(m, n, rest) {
        PassedStays(m, n, d, k);
      } else if !Spoils(d, n, k) {
        OneDeath(m, n, d, k);
      } else {
        if FirstHalf(m, n, d) {
          FirstHalfSafe(m, n, d, k);
        }
        SpoiledPasses(m, n, d, k);
      }
    }
  }

  /** Any number of deaths, up to 65501 chunks: the last open always succeeds and leaves copy 0 migrated, and copy 1 too
      exactly when no death spoiled its healing. */
  lemma AnyCrashesIff(m: Mem, n: nat, ks: seq<nat>)
    requires Before(m, n) && n <= 65501
    ensures var d := AfterDeaths(Pair(m, m), n, ks);
            var o := Reopen(d.a, d.b, n);
            o.Open? && o.a == Migrate(m, n) && (o.b == Migrate(m, n) <==> Unspoiled(m, n, ks))
  {
    var d := AfterDeaths(Pair(m, m), n, ks);
    AnyRun(m, n, ks);
    if Unspoiled(m, n, ks) {
      GoodOpens(m, n, d);
    } else {
      PassedStays(m, n, d, 0);
    }
  }

  // ---------------------------------------------------------------- a pool on which it happens

  /** Copy 1 with 16 bytes of the new layout over the old one. */
  function TornCopy(m: Mem, n: nat): (b: Mem)
    requires RoomFor(m, n)
    ensures |b| == |m|
  {
    Migrate(m, n)[..16] + m[16..]
  }

  lemma MarkedFacts(m: Mem, n: nat)
    requires Before(m, n)
    ensures var b := Set(m, DIRTY, [1]);
            |b| == |m| && Loose(m, n, b) && HasMagic(b, OLD_MAGIC) && b[16..] == m[16..] && b != m
  {
    Marked(m, n);
    SetAt(m, DIRTY, [1], DIRTY);
  }

  lemma Differs(m: Mem, n: nat)
    requires Before(m, n) && m[SECONDARY] != 0
    ensures Migrate(m, n)[16..] != m[16..] && Migrate(m, n)[SECONDARY] == 0 && TornCopy(m, n)[SECONDARY] == m[SECONDARY]
  {
    MigrateAt(m, n, SECONDARY);
    assert Migrate(m, n)[16..][SECONDARY - 16] != m[16..][SECONDARY - 16];
  }

  lemma MarkedSpoils(m: Mem, n: nat, d: Pair)
    requires Before(m, n) && m[SECONDARY] != 0 && d == Pair(Migrate(m, n), Set(m, DIRTY, [1]))
    ensures SecondHalf(m, n, d) && Spoils(d, n, 16)
  {
    MarkedFacts(m, n);
    MigratedFacts(m, n);
    Differs(m, n);
  }

  /** Die right after copy 1 is marked dirty, and again after 16 bytes of its healing: every later open takes the torn
      copy for a clean one. */
  lemma TornCopyPasses(m: Mem, n: nat) returns (d: Pair)
    requires Before(m, n) && m[SECONDARY] != 0
    ensures d == AfterDeaths(Pair(m, m), n, [|MigrateStores(m, n)| + 1, 16]) == Pair(Migrate(m, n), TornCopy(m, n))
    ensures Reopen(d.a, d.b, n) == Open(d.a, d.b) && d.b[SECONDARY] != d.a[SECONDARY]
  {
    var k := |MigrateStores(m, n)| + 1;
    TwoDeaths(Pair(m, m), n, k, 16);
    var e := MarkedSecond(m, n);
    MarkedSpoils(m, n, e);
    SpoiledPasses(m, n, e, 16);
    MarkedFacts(m, n);
    Differs(m, n);
    d := Die(e, n, 16);
    PassedStays(m, n, d, 0);
  }

  lemma TwoDeaths(d: Pair, n: nat, k: nat, j: nat)
    requires |d.a| == |d.b| && RoomFor(d.a, n)
    ensures AfterDeaths(d, n, [k, j]) == Die(Die(d, n, k), n, j)
  {
    assert [k, j][..1] == [k] && [k][..0] == [];
    assert AfterDeaths(d, n, []) == d;
    assert AfterDeaths(d, n, [k]) == Die(d, n, k);
  }

  lemma MarkedSecond(m: Mem, n: nat) returns (d: Pair)
    requires Before(m, n)
    ensures d == Die(Pair(m, m), n, |MigrateStores(m, n)| + 1) == Pair(Migrate(m, n), Set(m, DIRTY, [1]))
  {
    var ws := MigrateStores(m, n);
    StartStores(m, n, ws);
    OneMark(m, n, ws);
    MigrateRun(m, n);
    d := CutMark(m, ReopenStores(Pair(m, m), n), ws);
  }

  lemma StartStores(m: Mem, n: nat, ws: seq<Poke>)
    requires Before(m, n) && ws == MigrateStores(m, n)
    ensures ReopenStores(Pair(m, m), n) == OnA(ws) + OnB(ws)
  {
    Start(m, n);
    FirstHalfStores(m, n, Pair(m, m));
    EmptyFirst(ws);
  }

  lemma CutMark(m: Mem, ss: seq<Store>, ws: seq<Poke>) returns (d: Pair)
    requires ss == OnA(ws) + OnB(ws) && 1 < |ws|
    ensures d == Cut(Pair(m, m), ss, |ws| + 1) == Pair(Poked(m, ws), Poked(m, ws[..1]))
  {
    CutInside(Pair(m, m), ws, ws, 1);
    d := Cut(Pair(m, m), ss, |ws| + 1);
  }

  lemma EmptyFirst(ws: seq<Poke>)
    ensures [] + ws == ws
  {
  }

  lemma OneMark(m: Mem, n: nat, ws: seq<Poke>)
    requires Before(m, n) && ws == MigrateStores(m, n)
    ensures 1 < |ws| && Poked(m, ws[..1]) == Set(m, DIRTY, [1])
  {
    var rest := BodyStores(Set(m, DIRTY, [1]), n) + (Pokes(0, NEW_MAGIC) + Pokes(DIRTY, [0]));
    PokedSplit(m, Pokes(DIRTY, [1]), rest, 1);
    Marked(m, n);
    WholePokes(Pokes(DIRTY, [1]), 1);
  }

  /** The torn copy is then the source for copy 0: one more death with copy 0 dirty, and its bytes are on both. */
  lemma TornCopySpreads(m: Mem, n: nat) returns (o: Opened)
    requires Before(m, n) && m[SECONDARY] != 0
    ensures |Set(Migrate(m, n), DIRTY, [1])| == |m|
    ensures o == Reopen(Set(Migrate(m, n), DIRTY, [1]), TornCopy(m, n), n)
    ensures o.Open? && o.b == TornCopy(m, n) && |o.a| == |m| && o.a[SECONDARY] == m[SECONDARY]
  {
    var r, b := Migrate(m, n), TornCopy(m, n);
    var a := Set(r, DIRTY, [1]);
    TornFacts(m, n);
    MarkedNew(m, n);
    NotBoth(a);
    NotBoth(b);
    SetAt(a, 0, b[..NEW_SIZE + 8 * n], SECONDARY);
    Differs(m, n);
    o := Reopen(a, b, n);
  }

  lemma TornFacts(m: Mem, n: nat)
    requires Before(m, n)
    ensures HasMagic(TornCopy(m, n), NEW_MAGIC) && !IsDirty(TornCopy(m, n))
  {
    MigratedFacts(m, n);
    MixedMagic(m, Migrate(m, n), 16);
  }

  lemma MarkedNew(m: Mem, n: nat)
    requires RoomFor(m, n)
    ensures var a := Set(Migrate(m, n), DIRTY, [1]); |a| == |m| && HasMagic(a, NEW_MAGIC) && IsDirty(a)
  {
    MigratedFacts(m, n);
    assert Set(Migrate(m, n), DIRTY, [1])[..8] == Migrate(m, n)[..8];
  }

  /** Beyond 65501 chunks the first copy is not safe either: die after the chunk infos are moved, and again after 16
      bytes of its healing. */
  lemma FirstCopySpoiled(m: Mem, n: nat) returns (d: Pair)
    requires Before(m, n) && n > 65501 && m[OLD_LISTS] != m[OLD_SIZE + (OLD_LISTS - NEW_SIZE)]
    ensures d == Die(Pair(m, m), n, 1 + 8 * n) && Spoils(d, n, 16)
  {
    var ws := MigrateStores(m, n);
    StartStores(m, n, ws);
    ChunksMoved(m, n, ws);
    CutFirst(Pair(m, m), ws, ws, 1 + 8 * n);
    d := Die(Pair(m, m), n, 1 + 8 * n);
    MovedOver(m, n, d.a);
  }

  lemma ChunksMoved(m: Mem, n: nat, ws: seq<Poke>)
    requires RoomFor(m, n) && ws == MigrateStores(m, n)
    ensures 1 + 8 * n <= |ws| && Poked(m, ws[..1 + 8 * n]) == Copy(Set(m, DIRTY, [1]), NEW_SIZE, OLD_SIZE, 8 * n)
  {
    var m0 := Set(m, DIRTY, [1]);
    var chunks := m0[OLD_SIZE..OLD_SIZE + 8 * n];
    var first, moved := Pokes(DIRTY, [1]), Pokes(NEW_SIZE, chunks);
    var lists, tail := Pokes(LISTS, m0[OLD_LISTS..OLD_LISTS + 24]), FieldStores(MoveChunks(m0, n)) + ZeroStores();
    var end := Pokes(0, NEW_MAGIC) + Pokes(DIRTY, [0]);
    MovedFirst(first, moved, lists, tail, end);
    PokedAppend(m, first, moved);
    PokesRun(m, DIRTY, [1]);
    PokesRun(m0, NEW_SIZE, chunks);
  }

  lemma MovedFirst(a: seq<Poke>, b: seq<Poke>, c: seq<Poke>, d: seq<Poke>, e: seq<Poke>)
    ensures (a + (((b + c) + d) + e))[..|a| + |b|] == a + b
  {
  }

  lemma MovedOver(m: Mem, n: nat, a: Mem)
    requires Before(m, n) && n > 65501 && m[OLD_LISTS] != m[OLD_SIZE + (OLD_LISTS - NEW_SIZE)]
    requires a == Copy(Set(m, DIRTY, [1]), NEW_SIZE, OLD_SIZE, 8 * n)
    ensures Spoils(Pair(a, m), n, 16)
  {
    var m0 := Set(m, DIRTY, [1]);
    CopyAt(m0, NEW_SIZE, OLD_SIZE, 8 * n, OLD_LISTS);
    CopyAt(m0, NEW_SIZE, OLD_SIZE, 8 * n, DIRTY);
    SetAt(m, DIRTY, [1], OLD_SIZE + (OLD_LISTS - NEW_SIZE));
    SetAt(m, DIRTY, [1], DIRTY);
    var y := m[..16] + a[16..];
    assert y[OLD_LISTS] != m[OLD_LISTS];
    assert Actual(n, LISTS) == From(OLD_LISTS);
  }

  lemma SomePool(n: nat) returns (m: Mem)
    ensures Before(m, n) && m[SECONDARY] != 0
  {
    m := seq(OLD_SIZE + 8 * n, i requires 0 <= i => if i < 8 then OLD_MAGIC[i] else if i == SECONDARY then 255 else 0);
    assert m[..8] == OLD_MAGIC;
  }
}
