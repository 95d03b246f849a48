/**
 The in-place migration of a metadata copy from layout MONAD007 to layout MONAD008, byte by
 byte, and reopening after a crash in it.
 */
module Migration {

  type Byte = b: nat | b < 256
  type Mem = seq<Byte>

  const OLD_SIZE: nat := 528512
  const NEW_SIZE: nat := 4480
  const OLD_DB_OFFSETS: nat := 524328
  const OLD_AUTO_EXPIRE: nat := 524384
  const OLD_LISTS: nat := 528488
  const STATE: nat := 296
  const DB_OFFSETS: nat := 312
  const BLOCK_IDS: nat := 368
  const SECONDARY: nat := 432
  const LISTS: nat := 4456
  const DIRTY: nat := 15
  const CHUNKS_LEN: nat := 44
  /** The eighth byte of the magic string tells the two layouts apart. */
  const MAGIC_VERSION: nat := 7
  const OLD_MAGIC: seq<Byte> := [0x4D, 0x4F, 0x4E, 0x41, 0x44, 0x30, 0x30, 0x37]
  const NEW_MAGIC: seq<Byte> := [0x4D, 0x4F, 0x4E, 0x41, 0x44, 0x30, 0x30, 0x38]

  // ---------------------------------------------------------------- byte moves

  function Set(m: Mem, dst: nat, bytes: Mem): Mem
    requires dst + |bytes| <= |m|
  {
    m[..dst] + bytes + m[dst + |bytes|..]
  }

  /** The bytes at `src` are copied to `dst`, as if through a buffer. */
  function Copy(m: Mem, dst: nat, src: nat, len: nat): Mem
    requires dst + len <= |m| && src + len <= |m|
  {
    Set(m, dst, m[src..src + len])
  }

  lemma CopyAt(m: Mem, dst: nat, src: nat, len: nat, i: nat)
    requires dst + len <= |m| && src + len <= |m| && i < |m|
    ensures |Copy(m, dst, src, len)| == |m|
    ensures Copy(m, dst, src, len)[i] == if dst <= i < dst + len then m[src + (i - dst)] else m[i]
  {
  }

  lemma SetAt(m: Mem, dst: nat, bytes: Mem, i: nat)
    requires dst + |bytes| <= |m| && i < |m|
    ensures |Set(m, dst, bytes)| == |m|
    ensures Set(m, dst, bytes)[i] == if dst <= i < dst + |bytes| then bytes[i - dst] else m[i]
  {
  }

  // ---------------------------------------------------------------- byte stores

  /** One byte is stored. */
  datatype Poke = Poke(at: nat, value: Byte)

  /** The memory after a list of byte stores. */
  function Poked(m: Mem, ws: seq<Poke>): (r: Mem)
    ensures |r| == |m|
  {
    if ws == [] then m
    else
      var x, w := Poked(m, ws[..|ws| - 1]), ws[|ws| - 1];
      if w.at < |x| then x[w.at := w.value] else x
  }

  /** Storing `bytes` from `dst` on, lowest address first. */
  function Pokes(dst: nat, bytes: Mem): seq<Poke> {
    seq(|bytes|, k requires 0 <= k < |bytes| => Poke(dst + k, bytes[k]))
  }

  lemma {:induction false} PokedAppend(m: Mem, xs: seq<Poke>, ys: seq<Poke>)
    ensures Poked(m, xs + ys) == Poked(Poked(m, xs), ys)
  {
    if ys == [] {
      assert xs + ys == xs;
    } else {
      PokedAppend(m, xs, ys[..|ys| - 1]);
      assert (xs + ys)[..|xs + ys| - 1] == xs + ys[..|ys| - 1];
    }
  }

  /** A prefix of two lists is a prefix of the first, or the first and a prefix of the second. */
  lemma PokedSplit(m: Mem, xs: seq<Poke>, ys: seq<Poke>, k: nat)
    requires k <= |xs| + |ys|
    ensures k <= |xs| ==> Poked(m, (xs + ys)[..k]) == Poked(m, xs[..k])
    ensures |xs| <= k ==> Poked(m, (xs + ys)[..k]) == Poked(Poked(m, xs), ys[..k - |xs|])
  {
    if k <= |xs| {
      assert (xs + ys)[..k] == xs[..k];
    }
    if |xs| <= k {
      assert (xs + ys)[..k] == xs + ys[..k - |xs|];
      PokedAppend(m, xs, ys[..k - |xs|]);
    }
  }

  lemma {:induction false} PokesPrefix(m: Mem, dst: nat, bytes: Mem, k: nat)
    requires dst + |bytes| <= |m| && k <= |bytes|
    ensures Poked(m, Pokes(dst, bytes)[..k]) == Set(m, dst, bytes[..k])
  {
    var ws := Pokes(dst, bytes)[..k];
    if k == 0 {
      assert Set(m, dst, bytes[..0]) == m;
    } else {
      PokesPrefix(m, dst, bytes, k - 1);
      assert ws[..k - 1] == Pokes(dst, bytes)[..k - 1];
      var x := Set(m, dst, bytes[..k - 1]);
      assert x[dst + k - 1 := bytes[k - 1]] == Set(m, dst, bytes[..k]);
    }
  }

  lemma PokesRun(m: Mem, dst: nat, bytes: Mem)
    requires dst + |bytes| <= |m|
    ensures Poked(m, Pokes(dst, bytes)) == Set(m, dst, bytes)
  {
    PokesPrefix(m, dst, bytes, |bytes|);
    assert Pokes(dst, bytes)[..|bytes|] == Pokes(dst, bytes) && bytes[..|bytes|] == bytes;
  }

  /** The first `k` byte stores of `bytes` from `dst` on have been made. */
  ghost predicate Stored(was: Mem, now: Mem, dst: nat, bytes: Mem, ws: seq<Poke>, k: nat)
    requires k <= |bytes|
  {
    && |now| == |was| && |ws| == k
    && (forall i: nat :: i < |was| ==> now[i] == if dst <= i < dst + k then bytes[i - dst] else was[i])
    && (forall j: nat :: j < k ==> ws[j] == Poke(dst + j, bytes[j]))
  }

  lemma AllStored(was: Mem, now: Mem, dst: nat, bytes: Mem, ws: seq<Poke>)
    requires dst + |bytes| <= |was| && Stored(was, now, dst, bytes, ws, |bytes|)
    ensures ws == Pokes(dst, bytes) && now == Set(was, dst, bytes) == Poked(was, ws)
  {
    assert ws == Pokes(dst, bytes);
    forall i | 0 <= i < |was| ensures now[i] == Set(was, dst, bytes)[i] {
      SetAt(was, dst, bytes, i);
    }
    PokesRun(was, dst, bytes);
  }

  /** Copying downwards in place, lowest byte first. */
  method MoveDown(m: array<Byte>, dst: nat, src: nat, len: nat, ghost bytes: Mem) returns (ghost ws: seq<Poke>)
    requires dst <= src && src + len <= m.Length && |bytes| == len && forall k: nat :: k < len ==>
             m[src + k] == bytes[k]
    modifies m
    ensures Stored(old(m[..]), m[..], dst, bytes, ws, len)
  {
    ws := [];
    for k := 0 to len
      invariant Stored(old(m[..]), m[..], dst, bytes, ws, k)
      invariant forall i: nat :: dst + k <= i < m.Length ==> m[i] == old(m[i])
    {
      assert m[src + k] == bytes[k];
      ws := ws + [Poke(dst + k, m[src + k])];
      m[dst + k] := m[src + k];
    }
  }

  /** This is right also when the regions overlap.  `ws` lists the byte stores made. */
  method MemMove(m: array<Byte>, dst: nat, src: nat, len: nat) returns (ghost ws: seq<Poke>)
    requires dst <= src && src + len <= m.Length
    modifies m
    ensures ws == Pokes(dst, old(m[..])[src..src + len])
    ensures m[..] == Copy(old(m[..]), dst, src, len) == Poked(old(m[..]), ws)
  {
    ghost var bytes := m[..][src..src + len];
    ws := MoveDown(m, dst, src, len, bytes);
    AllStored(old(m[..]), m[..], dst, bytes, ws);
  }

  method MemSet(m: array<Byte>, dst: nat, bytes: Mem) returns (ghost ws: seq<Poke>)
    requires dst + |bytes| <= m.Length
    modifies m
    ensures ws == Pokes(dst, bytes)
    ensures m[..] == Set(old(m[..]), dst, bytes) == Poked(old(m[..]), ws)
  {
    ws := [];
    for k := 0 to |bytes|
      invariant Stored(old(m[..]), m[..], dst, bytes, ws, k)
    {
      ws := ws + [Poke(dst + k, bytes[k])];
      m[dst + k] := bytes[k];
    }
    AllStored(old(m[..]), m[..], dst, bytes, ws);
  }

  // ---------------------------------------------------------------- what the migration is to do

  function Zeros(n: nat): Mem {
    seq(n, _ => 0)
  }

  /** Where byte `i` of the new layout comes from: a byte of the old layout, or a given value. */
  datatype Origin = From(addr: nat) | Given(value: Byte)

  function Meant(n: nat, i: nat): Origin {
    if i < 8 then Given(NEW_MAGIC[i])
    else if i == DIRTY then Given(0)
    else if i < STATE then From(i)
    else if i < STATE + 8 then From(OLD_AUTO_EXPIRE + (i - STATE))
    else if i < DB_OFFSETS then Given(0)
    else if i < BLOCK_IDS then From(OLD_DB_OFFSETS + (i - DB_OFFSETS))
    else if i < SECONDARY then From(OLD_AUTO_EXPIRE + 8 + (i - BLOCK_IDS))
    else if i < LISTS then Given(0)
    else if i < NEW_SIZE then From(OLD_LISTS + (i - LISTS))
    else if i < NEW_SIZE + 8 * n then From(OLD_SIZE + (i - NEW_SIZE))
    else From(i)
  }

  function Take(m: Mem, o: Origin): Byte
    requires o.From? ==> o.addr < |m|
  {
    match o case From(a) => m[a] case Given(v) => v
  }

  predicate RoomFor(m: Mem, n: nat) {
    OLD_SIZE + 8 * n <= |m|
  }

  /** Every field of the new layout has its old bytes. */
  ghost predicate Relocated(m: Mem, m': Mem, n: nat)
    requires RoomFor(m, n)
  {
    |m'| == |m| && forall i: nat :: i < |m| ==> m'[i] == Take(m, Meant(n, i))
  }

  // ---------------------------------------------------------------- the steps

  /** Steps 1 to 3: the chunk infos and the list heads. */
  function MoveChunks(m: Mem, n: nat): Mem
    requires RoomFor(m, n)
  {
    var lists := m[OLD_LISTS..OLD_LISTS + 24];
    Set(Copy(m, NEW_SIZE, OLD_SIZE, 8 * n), LISTS, lists)
  }

  /** Step 4: the offsets, the block ids and the auto-expire version. */
  function MoveFields(m: Mem): Mem
    requires OLD_SIZE <= |m|
  {
    var autoExpire := m[OLD_AUTO_EXPIRE..OLD_AUTO_EXPIRE + 8];
    var m1 := Copy(m, DB_OFFSETS, OLD_DB_OFFSETS, 56);
    var m2 := Copy(m1, BLOCK_IDS, OLD_AUTO_EXPIRE + 8, 64);
    Set(m2, STATE, autoExpire)
  }

  /** Steps 4 to 6: blank what is new, then the magic. */
  function Blank(m: Mem): Mem
    requires OLD_SIZE <= |m|
  {
    var m1 := Set(m, STATE + 8, Zeros(8));
    var m2 := Set(m1, SECONDARY, Zeros(LISTS - SECONDARY));
    Set(m2, 0, NEW_MAGIC)
  }

  /** The whole migration of a copy, under its dirty flag. */
  function Migrate(m: Mem, n: nat): (r: Mem)
    requires RoomFor(m, n)
    ensures |r| == |m|
  {
    Set(Blank(MoveFields(MoveChunks(Set(m, DIRTY, [1]), n))), DIRTY, [0])
  }

  // ---------------------------------------------------------------- what the steps do

  /** Where the byte now at `a` was before the chunk infos moved. */
  function Shift(n: nat, a: nat): nat {
    if LISTS <= a < NEW_SIZE then OLD_LISTS + (a - LISTS)
    else if NEW_SIZE <= a < NEW_SIZE + 8 * n then OLD_SIZE + (a - NEW_SIZE)
    else a
  }

  function Fields(a: nat): nat {
    if STATE <= a < STATE + 8 then OLD_AUTO_EXPIRE + (a - STATE)
    else if DB_OFFSETS <= a < BLOCK_IDS then OLD_DB_OFFSETS + (a - DB_OFFSETS)
    else if BLOCK_IDS <= a < SECONDARY then OLD_AUTO_EXPIRE + 8 + (a - BLOCK_IDS)
    else a
  }

  /** Where byte `i` really comes from. */
  function Actual(n: nat, i: nat): Origin {
    if i < 8 then Given(NEW_MAGIC[i])
    else if i == DIRTY || STATE + 8 <= i < DB_OFFSETS || SECONDARY <= i < LISTS then Given(0)
    else From(Shift(n, Fields(i)))
  }

  lemma MoveChunksAt(m: Mem, n: nat, a: nat)
    requires RoomFor(m, n) && a < |m|
    ensures Shift(n, a) < |m| && MoveChunks(m, n)[a] == m[Shift(n, a)]
  {
    CopyAt(m, NEW_SIZE, OLD_SIZE, 8 * n, a);
    SetAt(Copy(m, NEW_SIZE, OLD_SIZE, 8 * n), LISTS, m[OLD_LISTS..OLD_LISTS + 24], a);
  }

  lemma MoveFieldsAt(m: Mem, a: nat)
    requires OLD_SIZE <= |m| && a < |m|
    ensures Fields(a) < |m| && MoveFields(m)[a] == m[Fields(a)]
  {
    var m1 := Copy(m, DB_OFFSETS, OLD_DB_OFFSETS, 56);
    var m2 := Copy(m1, BLOCK_IDS, OLD_AUTO_EXPIRE + 8, 64);
    CopyAt(m, DB_OFFSETS, OLD_DB_OFFSETS, 56, a);
    CopyAt(m1, BLOCK_IDS, OLD_AUTO_EXPIRE + 8, 64, a);
    if BLOCK_IDS <= a < SECONDARY {
      CopyAt(m, DB_OFFSETS, OLD_DB_OFFSETS, 56, Fields(a));
    }
    SetAt(m2, STATE, m[OLD_AUTO_EXPIRE..OLD_AUTO_EXPIRE + 8], a);
  }

  lemma BlankAt(m: Mem, a: nat)
    requires OLD_SIZE <= |m| && a < |m|
    ensures |Blank(m)| == |m|
    ensures Blank(m)[a] == if a < 8 then NEW_MAGIC[a]
                           else if STATE + 8 <= a < DB_OFFSETS || SECONDARY <= a < LISTS then 0 else m[a]
  {
    var m1 := Set(m, STATE + 8, Zeros(8));
    var m2 := Set(m1, SECONDARY, Zeros(LISTS - SECONDARY));
    SetAt(m, STATE + 8, Zeros(8), a);
    SetAt(m1, SECONDARY, Zeros(LISTS - SECONDARY), a);
    SetAt(m2, 0, NEW_MAGIC, a);
  }

  /** Byte by byte, for any number of chunks, overlapping or not. */
  lemma MigrateAt(m: Mem, n: nat, i: nat)
    requires RoomFor(m, n) && i < |m|
    ensures Actual(n, i).From? ==> Actual(n, i).addr < |m|
    ensures Migrate(m, n)[i] == Take(m, Actual(n, i))
  {
    var m0 := Set(m, DIRTY, [1]);
    var m1 := MoveChunks(m0, n);
    var m2 := MoveFields(m1);
    SetAt(Blank(m2), DIRTY, [0], i);
    BlankAt(m2, i);
    MoveFieldsAt(m1, i);
    MoveChunksAt(m0, n, Fields(i));
    SetAt(m, DIRTY, [1], Shift(n, Fields(i)));
  }

  /** The fields keep their bytes in every memory exactly up to 64981 chunks: one chunk more and the moved chunk
      infos overwrite the offsets still to be moved. */
  lemma RelocatedUpTo(m: Mem, n: nat)
    requires RoomFor(m, n) && n <= 64981
    ensures Relocated(m, Migrate(m, n), n)
  {
    forall i: nat | i < |m| ensures Migrate(m, n)[i] == Take(m, Meant(n, i)) {
      MigrateAt(m, n, i);
    }
  }

  lemma NotRelocatedBeyond(n: nat) returns (m: Mem)
    requires n > 64981
    ensures RoomFor(m, n) && !Relocated(m, Migrate(m, n), n)
  {
    m := seq(OLD_SIZE + 8 * n, i => if i == OLD_DB_OFFSETS then 1 else 0);
    MigrateAt(m, n, DB_OFFSETS);
    assert Migrate(m, n)[DB_OFFSETS] != Take(m, Meant(n, DB_OFFSETS));
  }

  lemma RelocatedIff(n: nat)
    ensures (forall m :: RoomFor(m, n) ==> Relocated(m, Migrate(m, n), n)) <==> n <= 64981
  {
    if n <= 64981 {
      forall m | RoomFor(m, n) ensures Relocated(m, Migrate(m, n), n) {
        RelocatedUpTo(m, n);
      }
    } else {
      var m := NotRelocatedBeyond(n);
    }
  }

  // ---------------------------------------------------------------- the stores of a migration

  function ChunkStores(m: Mem, n: nat): seq<Poke>
    requires RoomFor(m, n)
  {
    Pokes(NEW_SIZE, m[OLD_SIZE..OLD_SIZE + 8 * n]) + Pokes(LISTS, m[OLD_LISTS..OLD_LISTS + 24])
  }

  function FieldStores(m: Mem): seq<Poke>
    requires OLD_SIZE <= |m|
  {
    var m1 := Copy(m, DB_OFFSETS, OLD_DB_OFFSETS, 56);
    Pokes(DB_OFFSETS, m[OLD_DB_OFFSETS..OLD_DB_OFFSETS + 56]) +
    (Pokes(BLOCK_IDS, m1[OLD_AUTO_EXPIRE + 8..OLD_AUTO_EXPIRE + 72]) +
     Pokes(STATE, m[OLD_AUTO_EXPIRE..OLD_AUTO_EXPIRE + 8]))
  }

  function ZeroStores(): seq<Poke> {
    Pokes(STATE + 8, Zeros(8)) + Pokes(SECONDARY, Zeros(LISTS - SECONDARY))
  }

  /** Everything before the new magic. */
  function BodyStores(m: Mem, n: nat): seq<Poke>
    requires RoomFor(m, n)
  {
    ChunkStores(m, n) + (FieldStores(MoveChunks(m, n)) + ZeroStores())
  }

  /** Every byte store of the migration of one copy, in order. */
  function MigrateStores(m: Mem, n: nat): seq<Poke>
    requires RoomFor(m, n)
  {
    Pokes(DIRTY, [1]) + (BodyStores(Set(m, DIRTY, [1]), n) + (Pokes(0, NEW_MAGIC) + Pokes(DIRTY, [0])))
  }

  lemma ChunkRun(m: Mem, n: nat)
    requires RoomFor(m, n)
    ensures Poked(m, ChunkStores(m, n)) == MoveChunks(m, n)
  {
    var chunks, lists := m[OLD_SIZE..OLD_SIZE + 8 * n], m[OLD_LISTS..OLD_LISTS + 24];
    PokesRun(m, NEW_SIZE, chunks);
    PokesRun(Set(m, NEW_SIZE, chunks), LISTS, lists);
    PokedAppend(m, Pokes(NEW_SIZE, chunks), Pokes(LISTS, lists));
  }

  lemma FieldRun(m: Mem)
    requires OLD_SIZE <= |m|
    ensures Poked(m, FieldStores(m)) == MoveFields(m)
  {
    var m1 := Copy(m, DB_OFFSETS, OLD_DB_OFFSETS, 56);
    var offsets, ids := m[OLD_DB_OFFSETS..OLD_DB_OFFSETS + 56], m1[OLD_AUTO_EXPIRE + 8..OLD_AUTO_EXPIRE + 72];
    var expire := m[OLD_AUTO_EXPIRE..OLD_AUTO_EXPIRE + 8];
    PokesRun(m, DB_OFFSETS, offsets);
    PokesRun(m1, BLOCK_IDS, ids);
    PokesRun(Set(m1, BLOCK_IDS, ids), STATE, expire);
    PokedAppend(m, Pokes(DB_OFFSETS, offsets), Pokes(BLOCK_IDS, ids) + Pokes(STATE, expire));
    PokedAppend(m1, Pokes(BLOCK_IDS, ids), Pokes(STATE, expire));
  }

  lemma ZeroRun(m: Mem)
    requires OLD_SIZE <= |m|
    ensures Poked(m, ZeroStores()) == Set(Set(m, STATE + 8, Zeros(8)), SECONDARY, Zeros(LISTS - SECONDARY))
  {
    PokesRun(m, STATE + 8, Zeros(8));
    PokesRun(Set(m, STATE + 8, Zeros(8)), SECONDARY, Zeros(LISTS - SECONDARY));
    PokedAppend(m, Pokes(STATE + 8, Zeros(8)), Pokes(SECONDARY, Zeros(LISTS - SECONDARY)));
  }

  lemma BodyRun(m: Mem, n: nat)
    requires RoomFor(m, n)
    ensures var x := Poked(m, BodyStores(m, n));
            |x| == |m| && Set(x, 0, NEW_MAGIC) == Blank(MoveFields(MoveChunks(m, n)))
  {
    var m1 := MoveChunks(m, n);
    ChunkRun(m, n);
    FieldRun(m1);
    ZeroRun(MoveFields(m1));
    PokedAppend(m, ChunkStores(m, n), FieldStores(m1) + ZeroStores());
    PokedAppend(m1, FieldStores(m1), ZeroStores());
  }

  /** The list of byte stores leads to the migrated copy. */
  lemma MigrateRun(m: Mem, n: nat)
    requires RoomFor(m, n)
    ensures Poked(m, MigrateStores(m, n)) == Migrate(m, n)
  {
    var m0 := Set(m, DIRTY, [1]);
    PokesRun(m, DIRTY, [1]);
    PokedAppend(m, Pokes(DIRTY, [1]), BodyStores(m0, n) + (Pokes(0, NEW_MAGIC) + Pokes(DIRTY, [0])));
    BodyRun(m0, n);
    var x := Poked(m0, BodyStores(m0, n));
    PokedAppend(m0, BodyStores(m0, n), Pokes(0, NEW_MAGIC) + Pokes(DIRTY, [0]));
    PokesRun(x, 0, NEW_MAGIC);
    PokedAppend(x, Pokes(0, NEW_MAGIC), Pokes(DIRTY, [0]));
    PokesRun(Set(x, 0, NEW_MAGIC), DIRTY, [0]);
  }

  // ---------------------------------------------------------------- a crash inside the migration

  predicate HasMagic(m: Mem, magic: seq<Byte>) {
    8 <= |m| && m[..8] == magic
  }

  predicate IsDirty(m: Mem) {
    |m| > DIRTY && m[DIRTY] != 0
  }

  /** Unchanged where the migration does not write: the start of the header and beyond the new layout. */
  ghost predicate Kept(m: Mem, n: nat, x: Mem) {
    && RoomFor(m, n) && |x| == |m|
    && (forall i: nat :: NEW_SIZE + 8 * n <= i < |m| ==> x[i] == m[i])
    && (forall i: nat :: 8 <= i < STATE && i != DIRTY ==> x[i] == m[i])
  }

  /** A copy left in the middle of its migration: marked dirty, with either magic. */
  ghost predicate Torn(m: Mem, n: nat, x: Mem) {
    Kept(m, n, x) && IsDirty(x) && (HasMagic(x, OLD_MAGIC) || HasMagic(x, NEW_MAGIC))
  }

  /** The same before the magic is stored. */
  ghost predicate Going(m: Mem, n: nat, x: Mem) {
    Kept(m, n, x) && x[DIRTY] == 1 && HasMagic(x, OLD_MAGIC)
  }

  /** After every prefix of the stores the copy is in the middle of its migration. */
  ghost predicate Throughout(m: Mem, n: nat, x: Mem, ws: seq<Poke>) {
    forall k: nat :: k <= |ws| ==> Going(m, n, Poked(x, ws[..k]))
  }

  lemma ThroughoutAppend(m: Mem, n: nat, x: Mem, xs: seq<Poke>, ys: seq<Poke>)
    requires Throughout(m, n, x, xs) && Throughout(m, n, Poked(x, xs), ys)
    ensures Throughout(m, n, x, xs + ys)
  {
    forall k: nat | k <= |xs + ys| ensures Going(m, n, Poked(x, (xs + ys)[..k])) {
      PokedSplit(x, xs, ys, k);
    }
  }

  lemma ThroughoutSet(m: Mem, n: nat, x: Mem, dst: nat, bytes: Mem)
    requires Going(m, n, x) && STATE <= dst && dst + |bytes| <= NEW_SIZE + 8 * n
    ensures Throughout(m, n, x, Pokes(dst, bytes)) && Going(m, n, Poked(x, Pokes(dst, bytes)))
  {
    forall k: nat | k <= |bytes| ensures Going(m, n, Poked(x, Pokes(dst, bytes)[..k])) {
      PokesPrefix(x, dst, bytes, k);
      assert Set(x, dst, bytes[..k])[..8] == x[..8];
    }
    assert Pokes(dst, bytes)[..|bytes|] == Pokes(dst, bytes);
  }

  lemma ThroughoutEnd(m: Mem, n: nat, x: Mem, ws: seq<Poke>)
    requires Throughout(m, n, x, ws)
    ensures Going(m, n, Poked(x, ws))
  {
    assert ws[..|ws|] == ws;
  }

  lemma ChunkThroughout(m: Mem, n: nat, x: Mem)
    requires Going(m, n, x)
    ensures Throughout(m, n, x, ChunkStores(x, n))
  {
    var chunks, lists := x[OLD_SIZE..OLD_SIZE + 8 * n], x[OLD_LISTS..OLD_LISTS + 24];
    ThroughoutSet(m, n, x, NEW_SIZE, chunks);
    ThroughoutSet(m, n, Poked(x, Pokes(NEW_SIZE, chunks)), LISTS, lists);
    ThroughoutAppend(m, n, x, Pokes(NEW_SIZE, chunks), Pokes(LISTS, lists));
  }

  lemma FieldThroughout(m: Mem, n: nat, x: Mem)
    requires Going(m, n, x)
    ensures Throughout(m, n, x, FieldStores(x))
  {
    var m1 := Copy(x, DB_OFFSETS, OLD_DB_OFFSETS, 56);
    var offsets, ids := x[OLD_DB_OFFSETS..OLD_DB_OFFSETS + 56], m1[OLD_AUTO_EXPIRE + 8..OLD_AUTO_EXPIRE + 72];
    var expire := x[OLD_AUTO_EXPIRE..OLD_AUTO_EXPIRE + 8];
    ThroughoutSet(m, n, x, DB_OFFSETS, offsets);
    var x1 := Poked(x, Pokes(DB_OFFSETS, offsets));
    ThroughoutSet(m, n, x1, BLOCK_IDS, ids);
    ThroughoutSet(m, n, Poked(x1, Pokes(BLOCK_IDS, ids)), STATE, expire);
    ThroughoutAppend(m, n, x1, Pokes(BLOCK_IDS, ids), Pokes(STATE, expire));
    ThroughoutAppend(m, n, x, Pokes(DB_OFFSETS, offsets), Pokes(BLOCK_IDS, ids) + Pokes(STATE, expire));
  }

  lemma ZeroThroughout(m: Mem, n: nat, x: Mem)
    requires Going(m, n, x)
    ensures Throughout(m, n, x, ZeroStores())
  {
    ThroughoutSet(m, n, x, STATE + 8, Zeros(8));
    ThroughoutSet(m, n, Poked(x, Pokes(STATE + 8, Zeros(8))), SECONDARY, Zeros(LISTS - SECONDARY));
    ThroughoutAppend(m, n, x, Pokes(STATE + 8, Zeros(8)), Pokes(SECONDARY, Zeros(LISTS - SECONDARY)));
  }

  lemma BodyThroughout(m: Mem, n: nat, x: Mem)
    requires Going(m, n, x)
    ensures Throughout(m, n, x, BodyStores(x, n))
  {
    var x1 := MoveChunks(x, n);
    ChunkThroughout(m, n, x);
    ChunkRun(x, n);
    ThroughoutEnd(m, n, x, ChunkStores(x, n));
    FieldThroughout(m, n, x1);
    ThroughoutEnd(m, n, x1, FieldStores(x1));
    ZeroThroughout(m, n, Poked(x1, FieldStores(x1)));
    ThroughoutAppend(m, n, x1, FieldStores(x1), ZeroStores());
    ThroughoutAppend(m, n, x, ChunkStores(x, n), FieldStores(x1) + ZeroStores());
  }

  lemma MagicPrefix(m: Mem, n: nat, x: Mem, k: nat)
    requires Going(m, n, x) && k <= 8
    ensures Torn(m, n, Set(x, 0, NEW_MAGIC[..k]))
  {
    var y := Set(x, 0, NEW_MAGIC[..k]);
    assert x[..8] == OLD_MAGIC;
    forall i: nat | i < 8 ensures y[i] == if i < k then NEW_MAGIC[i] else OLD_MAGIC[i] {
      assert x[i] == x[..8][i];
    }
    assert y[..8] == if k == 8 then NEW_MAGIC else OLD_MAGIC;
  }

  /** The first store marks the copy dirty. */
  lemma Marked(m: Mem, n: nat)
    requires RoomFor(m, n) && HasMagic(m, OLD_MAGIC)
    ensures Going(m, n, Set(m, DIRTY, [1])) && Poked(m, Pokes(DIRTY, [1])) == Set(m, DIRTY, [1])
  {
    PokesRun(m, DIRTY, [1]);
    assert Set(m, DIRTY, [1])[..8] == m[..8];
  }

  lemma LastTorn(m: Mem, n: nat, x: Mem, k: nat)
    requires Going(m, n, x) && k <= 8
    ensures Torn(m, n, Poked(x, (Pokes(0, NEW_MAGIC) + Pokes(DIRTY, [0]))[..k]))
  {
    PokedSplit(x, Pokes(0, NEW_MAGIC), Pokes(DIRTY, [0]), k);
    PokesPrefix(x, 0, NEW_MAGIC, k);
    MagicPrefix(m, n, x, k);
  }

  lemma BodyTorn(m: Mem, n: nat, x: Mem, body: seq<Poke>, k: nat)
    requires Throughout(m, n, x, body) && k <= |body| + 8
    ensures Torn(m, n, Poked(x, (body + (Pokes(0, NEW_MAGIC) + Pokes(DIRTY, [0])))[..k]))
  {
    PokedSplit(x, body, Pokes(0, NEW_MAGIC) + Pokes(DIRTY, [0]), k);
    if |body| <= k {
      ThroughoutEnd(m, n, x, body);
      LastTorn(m, n, Poked(x, body), k - |body|);
    }
  }

  /** Every memory that a crash inside the migration can leave: after any proper prefix of its byte stores the copy is
      marked dirty, has one of the two magics, and is unchanged outside the new layout. */
  lemma MigrateTorn(m: Mem, n: nat, k: nat)
    requires RoomFor(m, n) && HasMagic(m, OLD_MAGIC) && 0 < k < |MigrateStores(m, n)|
    ensures Torn(m, n, Poked(m, MigrateStores(m, n)[..k]))
  {
    var m0 := Set(m, DIRTY, [1]);
    Marked(m, n);
    BodyThroughout(m, n, m0);
    PokedSplit(m, Pokes(DIRTY, [1]), BodyStores(m0, n) + (Pokes(0, NEW_MAGIC) + Pokes(DIRTY, [0])), k);
    BodyTorn(m, n, m0, BodyStores(m0, n), k - 1);
  }

  // ---------------------------------------------------------------- in place

  /** Steps 1 to 3. */
  method MigrateChunks(m: array<Byte>, n: nat) returns (ghost ws: seq<Poke>)
    requires RoomFor(m[..], n)
    modifies m
    ensures ws == ChunkStores(old(m[..]), n)
    ensures m[..] == MoveChunks(old(m[..]), n)
  {
    var lists := m[OLD_LISTS..OLD_LISTS + 24];
    ghost var chunks := m[..][OLD_SIZE..OLD_SIZE + 8 * n];
    ws := MemMove(m, NEW_SIZE, OLD_SIZE, 8 * n);
    ghost var s := MemSet(m, LISTS, lists);
    ws := ws + s;
  }

  /** Step 4. */
  method MigrateFields(m: array<Byte>) returns (ghost ws: seq<Poke>)
    requires OLD_SIZE <= m.Length
    modifies m
    ensures ws == FieldStores(old(m[..]))
    ensures m[..] == MoveFields(old(m[..]))
  {
    var autoExpire := m[OLD_AUTO_EXPIRE..OLD_AUTO_EXPIRE + 8];
    ws := MemMove(m, DB_OFFSETS, OLD_DB_OFFSETS, 56);
    ghost var s := MemMove(m, BLOCK_IDS, OLD_AUTO_EXPIRE + 8, 64);
    ghost var t := MemSet(m, STATE, autoExpire);
    ws := ws + (s + t);
  }

  /** Steps 4 to 6. */
  method BlankAndStamp(m: array<Byte>) returns (ghost ws: seq<Poke>)
    requires OLD_SIZE <= m.Length
    modifies m
    ensures ws == ZeroStores() + Pokes(0, NEW_MAGIC)
    ensures m[..] == Blank(old(m[..]))
  {
    ws := MemSet(m, STATE + 8, Zeros(8));
    ghost var s := MemSet(m, SECONDARY, Zeros(LISTS - SECONDARY));
    ghost var t := MemSet(m, 0, NEW_MAGIC);
    ws := ws + s + t;
  }

  lemma Regroup(a: seq<Poke>, b: seq<Poke>, c: seq<Poke>, d: seq<Poke>, e: seq<Poke>, f: seq<Poke>)
    ensures a + b + c + (d + e) + f == a + ((b + (c + d)) + (e + f))
  {
  }

  /** Migrating a copy in place makes exactly the listed byte stores. */
  method MigrateCopy(m: array<Byte>, n: nat) returns (ghost ws: seq<Poke>)
    requires RoomFor(m[..], n)
    modifies m
    ensures ws == MigrateStores(old(m[..]), n)
    ensures m[..] == Migrate(old(m[..]), n)
  {
    ghost var m0 := m[..];
    ghost var a := MemSet(m, DIRTY, [1]);
    ghost var b := MigrateChunks(m, n);
    ghost var c := MigrateFields(m);
    ghost var d := BlankAndStamp(m);
    ghost var f := MemSet(m, DIRTY, [0]);
    ws := a + b + c + d + f;
    Regroup(a, b, c, ZeroStores(), Pokes(0, NEW_MAGIC), f);
  }
}
