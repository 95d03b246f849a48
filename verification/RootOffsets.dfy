/**
 The root-offsets ring: a circular buffer from version to root offset, with the lower bound
 and the next version kept beside it.  The first part is its specification as functions on
 values and the facts about them; the class below is proved against those functions.
 */
module RootOffsets {
  import opened Disk
  import opened Arithmetic

  datatype RingState = RingState(lb: nat, nv: nat, cells: seq<Offset>)

  /** A ring with a live portion; every operation asserts a non-zero capacity. */
  type LiveRing = r: RingState | 0 < |r.cells| witness RingState(0, 0, [INVALID_OFFSET])

  function Entry(r: LiveRing, v: nat): Offset {
    r.cells[Wrap(v, |r.cells|)]
  }

  /** What a query returns; next version 0 stands for an empty database. */
  function Get(r: LiveRing, v: nat): Offset {
    if r.lb <= v < r.nv then Entry(r, v) else INVALID_OFFSET
  }

  /** The partial map the ring stands for. */
  function View(r: LiveRing): map<nat, Offset> {
    map v | r.lb <= v < r.nv && Entry(r, v) != INVALID_OFFSET :: Entry(r, v)
  }

  /** The caller's obligation: live versions do not share slots. */
  predicate Windowed(r: LiveRing) {
    r.lb <= r.nv <= r.lb + |r.cells|
  }

  // ---------------------------------------------------------------- specification

  /** First version from `idx` on that is readable, or `max`. */
  function Scan(r: LiveRing, idx: nat, max: nat): nat
    decreases max - idx
  {
    if idx < max && Entry(r, idx) == INVALID_OFFSET then Scan(r, idx + 1, max) else idx
  }

  function Raise(r: LiveRing, hint: nat): (s: LiveRing)
    ensures s.cells == r.cells && s.nv == r.nv
  {
    if r.nv == 0 then r else r.(lb := Scan(r, if hint < r.lb then hint else r.lb, r.nv - 1))
  }

  function Put(r: LiveRing, v: nat, o: Offset): (s: LiveRing)
    ensures |s.cells| == |r.cells|
  {
    r.(cells := r.cells[Wrap(v, |r.cells|) := o])
  }

  function Push(r: LiveRing, o: Offset): LiveRing {
    var s := Put(r, r.nv, o).(nv := r.nv + 1);
    if o != INVALID_OFFSET then Raise(s, INVALID_BLOCK_NUM) else s
  }

  function Assign(r: LiveRing, i: nat, o: Offset): LiveRing {
    Raise(Put(r, i, o), if o != INVALID_OFFSET then i else INVALID_BLOCK_NUM)
  }

  function Blank(n: nat): seq<Offset> {
    seq(n, (_: nat) => INVALID_OFFSET)
  }

  function ResetAll(r: LiveRing, v: nat): LiveRing {
    RingState(v, v, Blank(|r.cells|))
  }

  /** Erase the `n` versions from `i` on, one at a time. */
  function EraseFrom(r: LiveRing, i: nat, n: nat): (s: LiveRing)
    ensures s.nv == r.nv && |s.cells| == |r.cells|
  {
    if n == 0 then r else Assign(EraseFrom(r, i, n - 1), i + n - 1, INVALID_OFFSET)
  }

  /** Cutting the ring off once the later versions are erased. */
  function Cut(s: LiveRing, version: nat): LiveRing {
    (if version < s.lb then s.(lb := version) else s).(nv := version + 1)
  }

  function Rewind(r: LiveRing, version: nat): LiveRing
    requires version + 1 < r.nv
  {
    Raise(Cut(EraseFrom(r, version + 1, r.nv - 1 - version), version), INVALID_BLOCK_NUM)
  }

  function PushBlanks(r: LiveRing, n: nat): (s: LiveRing)
    ensures |s.cells| == |r.cells| && s.nv == r.nv + n && s.lb == r.lb
  {
    if n == 0 then r else Push(PushBlanks(r, n - 1), INVALID_OFFSET)
  }

  function FastForward(r: LiveRing, version: nat): LiveRing
    requires r.nv <= version
  {
    if r.nv == 0 || version - (r.nv - 1) >= |r.cells| then ResetAll(r, version)
    else PushBlanks(r, version - r.nv)
  }

  /** Update on a single copy: erasing the only remaining version resets the ring. */
  function Update(r: LiveRing, i: nat, o: Offset): LiveRing {
    var s := Assign(r, i, o);
    if o == INVALID_OFFSET && 0 < s.nv && i == s.nv - 1 && i == s.lb then ResetAll(s, 0) else s
  }

  // ---------------------------------------------------------------- the lower bound

  lemma {:induction false} ScanFinds(r: LiveRing, idx: nat, max: nat)
    ensures var s := Scan(r, idx, max);
            && idx <= s && (idx <= max ==> s <= max) && (s < max ==> Entry(r, s) != INVALID_OFFSET)
            && (max <= idx ==> s == idx) && forall v :: idx <= v < s ==> Entry(r, v) == INVALID_OFFSET
    decreases max - idx
  {
    if idx < max && Entry(r, idx) == INVALID_OFFSET {
      ScanFinds(r, idx + 1, max);
    }
  }

  /** Skipping unreadable versions changes no answer. */
  lemma RaiseView(r: LiveRing)
    requires r.lb <= INVALID_BLOCK_NUM
    ensures View(Raise(r, INVALID_BLOCK_NUM)) == View(r)
    ensures forall v :: Get(Raise(r, INVALID_BLOCK_NUM), v) == Get(r, v)
    ensures r.lb <= Raise(r, INVALID_BLOCK_NUM).lb
    ensures r.lb < r.nv ==> Raise(r, INVALID_BLOCK_NUM).lb < r.nv
  {
    if r.nv != 0 {
      ScanFinds(r, r.lb, r.nv - 1);
    }
  }

  /** `b` is the least readable version of the history `h`, or the newest version if none is readable. */
  predicate Lowest(h: map<nat, Offset>, nv: nat, b: nat) {
    if h == map[] then b + 1 == nv else b in h && forall v :: v in h ==> b <= v
  }

  /** Raising the bound of a live window finds that version. */
  lemma RaiseLowest(r: LiveRing)
    requires r.lb < r.nv <= INVALID_BLOCK_NUM
    ensures var t := Raise(r, INVALID_BLOCK_NUM); View(t) == View(r) && Lowest(View(t), t.nv, t.lb)
  {
    var t := Raise(r, INVALID_BLOCK_NUM);
    RaiseView(r);
    ScanFinds(r, r.lb, r.nv - 1);
    assert forall v :: v in View(t) ==> t.lb <= v < t.nv;
    if t.lb + 1 < t.nv {
      assert t.lb in View(t);
    }
  }

  lemma PutEntry(r: LiveRing, v: nat, o: Offset, w: nat)
    ensures Entry(Put(r, v, o), w) == if Wrap(w, |r.cells|) == Wrap(v, |r.cells|) then o else Entry(r, w)
  {
  }

  lemma DistinctSlots(r: LiveRing, v: nat, w: nat)
    requires v != w && v < w + |r.cells| && w < v + |r.cells|
    ensures Wrap(v, |r.cells|) != Wrap(w, |r.cells|)
  {
    if v < w { WrapDistinct(v, w, |r.cells|); } else { WrapDistinct(w, v, |r.cells|); }
  }

  // ---------------------------------------------------------------- push

  /** Before the lower bound is raised. */
  lemma PushStored(r: LiveRing, o: Offset, s: LiveRing)
    requires r.lb <= r.nv < r.lb + |r.cells| && o != INVALID_OFFSET && s == Put(r, r.nv, o).(nv := r.nv + 1)
    ensures View(s) == View(r)[r.nv := o] && Entry(s, r.nv) == o
  {
    forall v | r.lb <= v < r.nv ensures Entry(s, v) == Entry(r, v) {
      DistinctSlots(r, v, r.nv);
    }
  }

  /** Raising the lower bound of a ring whose newest version is readable. */
  lemma RaisedLeast(s: LiveRing)
    requires s.lb < s.nv <= INVALID_BLOCK_NUM && Entry(s, s.nv - 1) != INVALID_OFFSET
    ensures var t := Raise(s, INVALID_BLOCK_NUM);
            View(t) == View(s) && s.lb <= t.lb < t.nv && t.lb in View(t) && forall v :: v in View(t) ==> t.lb <= v
  {
    RaiseView(s);
    ScanFinds(s, s.lb, s.nv - 1);
  }

  /** Under the window obligation a push adds exactly one entry, keeps the others, and leaves
      the lower bound at the least readable version. */
  lemma PushView(r: LiveRing, o: Offset)
    requires r.lb <= r.nv < r.lb + |r.cells| && r.nv < INVALID_BLOCK_NUM && o != INVALID_OFFSET
    ensures View(Push(r, o)) == View(r)[r.nv := o]
    ensures Windowed(Push(r, o)) && Push(r, o).lb in View(Push(r, o))
    ensures forall v :: v in View(Push(r, o)) ==> Push(r, o).lb <= v
  {
    var s := Put(r, r.nv, o).(nv := r.nv + 1);
    PushStored(r, o, s);
    RaisedLeast(s);
  }

  /** The obligation is needed: on a full window the oldest live version is silently
      overwritten, unless it held the same offset. */
  lemma PushFullIff(r: LiveRing, o: Offset)
    requires r.nv == r.lb + |r.cells| && r.nv < INVALID_BLOCK_NUM && o != INVALID_OFFSET
    ensures View(Push(r, o)) == View(r)[r.nv := o] <==> Entry(r, r.lb) == o
    ensures Get(Push(r, o), r.lb) == o
  {
    var s := Put(r, r.nv, o).(nv := r.nv + 1);
    assert Wrap(r.nv, |r.cells|) == Wrap(r.lb, |r.cells|);
    ScanFinds(s, s.lb, s.nv - 1);
    assert Push(r, o) == s;
    assert Entry(s, r.nv) == o;
    if Entry(r, r.lb) == o {
      assert s.cells == r.cells;
      assert View(s) == View(r)[r.nv := o];
    } else {
      assert r.lb in View(s) && View(s)[r.lb] == o;
    }
  }

  // ---------------------------------------------------------------- assign

  /** Storing an offset for a live version changes that entry only. */
  lemma AssignView(r: LiveRing, i: nat, o: Offset)
    requires Windowed(r) && r.lb <= i < r.nv <= INVALID_BLOCK_NUM && o != INVALID_OFFSET
    ensures View(Assign(r, i, o)) == View(r)[i := o] && Windowed(Assign(r, i, o))
    ensures Lowest(View(Assign(r, i, o)), r.nv, Assign(r, i, o).lb)
  {
    var s := Put(r, i, o);
    forall v | r.lb <= v < r.nv && v != i ensures Entry(s, v) == Entry(r, v) {
      DistinctSlots(r, v, i);
    }
    assert View(s) == View(r)[i := o];
    ScanFinds(s, s.lb, s.nv - 1);
    assert Assign(r, i, o) == Raise(s, INVALID_BLOCK_NUM);
    RaiseLowest(s);
  }

  /** Storing an offset below the lower bound lowers it to that version; whatever the slots in between still hold
      becomes readable too. */
  lemma AssignBelow(r: LiveRing, i: nat, o: Offset)
    requires i < r.lb <= r.nv <= INVALID_BLOCK_NUM && i + 1 < r.nv <= i + |r.cells| && o != INVALID_OFFSET
    ensures var s := Assign(r, i, o);
            s.lb == i && s.nv == r.nv && Windowed(s) && View(s) == View(r.(lb := i))[i := o]
  {
    var q: LiveRing, s := r.(lb := i), Put(r, i, o);
    forall v | i < v < r.nv ensures Entry(s, v) == Entry(q, v) {
      DistinctSlots(r, i, v);
    }
    assert Entry(s, i) == o;
    assert Assign(r, i, o) == s.(lb := i);
    forall v ensures v in View(s.(lb := i)) <==> v in View(q)[i := o] {
    }
  }

  /** Erasing a version of the window, or one below a lower bound that skipped it. */
  lemma EraseView(r: LiveRing, i: nat)
    requires Windowed(r) && i < r.nv <= INVALID_BLOCK_NUM && r.nv <= i + |r.cells|
    ensures View(Assign(r, i, INVALID_OFFSET)) == View(r) - {i}
    ensures Windowed(Assign(r, i, INVALID_OFFSET)) && r.lb <= Assign(r, i, INVALID_OFFSET).lb
    ensures r.lb < r.nv ==> Assign(r, i, INVALID_OFFSET).lb < r.nv
    ensures r.lb == i && i + 1 < r.nv ==> i < Assign(r, i, INVALID_OFFSET).lb
    ensures i == r.nv - 1 && r.lb == i ==> Assign(r, i, INVALID_OFFSET).lb == i
    ensures r.lb < r.nv ==> Lowest(View(r) - {i}, r.nv, Assign(r, i, INVALID_OFFSET).lb)
  {
    var s := Put(r, i, INVALID_OFFSET);
    forall v | r.lb <= v < r.nv && v != i ensures Entry(s, v) == Entry(r, v) {
      DistinctSlots(r, v, i);
    }
    assert View(s) == View(r) - {i};
    RaiseView(s);
    ScanFinds(s, s.lb, s.nv - 1);
    if r.lb < r.nv {
      RaiseLowest(s);
    }
  }

  // ---------------------------------------------------------------- rewind

  function Without(m: map<nat, Offset>, i: nat, n: nat): map<nat, Offset> {
    map v | v in m && !(i <= v < i + n) :: m[v]
  }

  function UpTo(m: map<nat, Offset>, version: nat): map<nat, Offset> {
    map v | v in m && v <= version :: m[v]
  }

  lemma WithoutMore(m: map<nat, Offset>, i: nat, n: nat)
    ensures Without(m, i, 0) == m
    ensures Without(m, i, n + 1) == Without(m, i, n) - {i + n}
  {
  }

  lemma {:induction false} EraseFromView(r: LiveRing, i: nat, n: nat)
    requires Windowed(r) && r.lb <= i && i + n <= r.nv <= INVALID_BLOCK_NUM
    ensures var s := EraseFrom(r, i, n);
            Windowed(s) && r.lb <= s.lb && (r.lb < r.nv ==> s.lb < r.nv) && View(s) == Without(View(r), i, n)
  {
    if n == 0 {
      WithoutMore(View(r), i, 0);
    } else {
      EraseFromView(r, i, n - 1);
      EraseOneMore(View(r), EraseFrom(r, i, n - 1), EraseFrom(r, i, n), i, n - 1);
    }
  }

  lemma EraseOneMore(m: map<nat, Offset>, s: LiveRing, t: LiveRing, i: nat, n: nat)
    requires Windowed(s) && s.nv <= INVALID_BLOCK_NUM && i + n < s.nv && s.nv <= i + n + |s.cells|
    requires t == Assign(s, i + n, INVALID_OFFSET) && View(s) == Without(m, i, n)
    ensures Windowed(t) && s.lb <= t.lb && (s.lb < s.nv ==> t.lb < s.nv) && View(t) == Without(m, i, n + 1)
  {
    EraseView(s, i + n);
    WithoutNext(m, View(s), View(t), i, n);
  }

  lemma WithoutNext(m: map<nat, Offset>, a: map<nat, Offset>, b: map<nat, Offset>, i: nat, n: nat)
    requires a == Without(m, i, n) && b == a - {i + n}
    ensures b == Without(m, i, n + 1)
  {
    WithoutMore(m, i, n);
  }

  /** Cutting a ring off after `version`, when nothing later is readable. */
  lemma CutView(s: LiveRing, version: nat)
    requires version < s.nv && s.lb <= s.nv
    requires forall v :: v in View(s) ==> v <= version
    requires version < s.lb ==> Entry(s, version) == INVALID_OFFSET
    ensures View(Cut(s, version)) == View(s)
  {
    var s1 := Cut(s, version);
    forall v ensures v in View(s1) <==> v in View(s) {
      if version < s.lb && v == version {
        assert Entry(s1, v) == INVALID_OFFSET;
      }
    }
  }

  lemma WithoutTail(r: LiveRing, version: nat)
    requires version < r.nv
    ensures Without(View(r), version + 1, r.nv - 1 - version) == UpTo(View(r), version)
  {
  }

  lemma RewindCut(r: LiveRing, version: nat, s: LiveRing)
    requires r.lb <= version && version + 1 < r.nv <= INVALID_BLOCK_NUM && Windowed(r)
    requires Windowed(s) && r.lb <= s.lb && s.nv == r.nv && |s.cells| == |r.cells|
    requires View(s) == Without(View(r), version + 1, r.nv - 1 - version)
    requires version < s.lb ==> Entry(s, version) == INVALID_OFFSET
    ensures View(Raise(Cut(s, version), INVALID_BLOCK_NUM)) == UpTo(View(r), version)
    ensures Windowed(Raise(Cut(s, version), INVALID_BLOCK_NUM))
    ensures Lowest(UpTo(View(r), version), version + 1, Raise(Cut(s, version), INVALID_BLOCK_NUM).lb)
  {
    WithoutTail(r, version);
    CutView(s, version);
    RaiseLowest(Cut(s, version));
  }

  /** Erasing another version keeps the slot of `v`, and skips it only if it is unreadable. */
  lemma EraseKeeps(s: LiveRing, i: nat, v: nat)
    requires v < i < v + |s.cells| && i < s.nv
    ensures var t := Assign(s, i, INVALID_OFFSET);
            Entry(t, v) == Entry(s, v) && (s.lb <= v < t.lb ==> Entry(s, v) == INVALID_OFFSET)
  {
    DistinctSlots(s, v, i);
    var t := Put(s, i, INVALID_OFFSET);
    PutEntry(s, i, INVALID_OFFSET, v);
    if s.lb <= INVALID_BLOCK_NUM {
      ScanFinds(t, t.lb, t.nv - 1);
    } else {
      ScanFinds(t, INVALID_BLOCK_NUM, t.nv - 1);
    }
  }

  lemma {:induction false} EraseFromEntry(r: LiveRing, i: nat, n: nat, v: nat)
    requires Windowed(r) && r.lb <= v < i && i + n <= r.nv <= INVALID_BLOCK_NUM
    ensures var s := EraseFrom(r, i, n);
            Entry(s, v) == Entry(r, v) && (v < s.lb ==> Entry(r, v) == INVALID_OFFSET)
  {
    if n != 0 {
      EraseFromEntry(r, i, n - 1, v);
      KeepsOneMore(Entry(r, v), EraseFrom(r, i, n - 1), EraseFrom(r, i, n), i + n - 1, v);
    }
  }

  lemma KeepsOneMore(o: Offset, s: LiveRing, t: LiveRing, i: nat, v: nat)
    requires v < i < v + |s.cells| && i < s.nv && t == Assign(s, i, INVALID_OFFSET)
    requires Entry(s, v) == o && (v < s.lb ==> o == INVALID_OFFSET)
    ensures Entry(t, v) == o && (v < t.lb ==> o == INVALID_OFFSET)
  {
    EraseKeeps(s, i, v);
  }

  lemma RewindLive(r: LiveRing, version: nat)
    requires Windowed(r) && r.lb <= version && version + 1 < r.nv <= INVALID_BLOCK_NUM
    ensures var s := Rewind(r, version);
            && View(s) == UpTo(View(r), version) && s.nv == version + 1 && Windowed(s)
            && Lowest(View(s), version + 1, s.lb)
  {
    var n := r.nv - 1 - version;
    var s := Erased(r, version, n);
    RewindCut(r, version, s);
  }

  /** The ring before the cut. */
  lemma Erased(r: LiveRing, version: nat, n: nat) returns (s: LiveRing)
    requires Windowed(r) && r.lb <= version && version + 1 + n == r.nv <= INVALID_BLOCK_NUM
    ensures s == EraseFrom(r, version + 1, n)
    ensures Windowed(s) && r.lb <= s.lb && View(s) == Without(View(r), version + 1, n)
    ensures version < s.lb ==> Entry(s, version) == INVALID_OFFSET
  {
    EraseFromView(r, version + 1, n);
    s := ErasedSlot(r, version, n);
  }

  lemma ErasedSlot(r: LiveRing, version: nat, n: nat) returns (s: LiveRing)
    requires Windowed(r) && r.lb <= version && version + 1 + n == r.nv <= INVALID_BLOCK_NUM
    ensures s == EraseFrom(r, version + 1, n) && (version < s.lb ==> Entry(s, version) == INVALID_OFFSET)
  {
    EraseFromEntry(r, version + 1, n, version);
    s := EraseFrom(r, version + 1, n);
  }

  /** Erasing never lowers the bound. */
  lemma {:induction false} EraseFromBound(r: LiveRing, i: nat, n: nat)
    requires r.lb <= r.nv <= INVALID_BLOCK_NUM
    ensures var s := EraseFrom(r, i, n); r.lb <= s.lb <= r.nv
  {
    if n != 0 {
      EraseFromBound(r, i, n - 1);
      var s := EraseFrom(r, i, n - 1);
      if s.nv != 0 {
        ScanFinds(Put(s, i + n - 1, INVALID_OFFSET), s.lb, s.nv - 1);
      }
    }
  }

  lemma {:induction false} EraseFromSlot(r: LiveRing, i: nat, n: nat, v: nat)
    requires v < i <= v + |r.cells| && i + n <= v + |r.cells| + 1
    ensures Entry(EraseFrom(r, i, n), v) == if i + n <= v + |r.cells| then Entry(r, v) else INVALID_OFFSET
  {
    if n != 0 {
      EraseFromSlot(r, i, n - 1, v);
      if i + n - 1 < v + |r.cells| {
        DistinctSlots(r, v, i + n - 1);
      } else {
        assert Wrap(v + |r.cells|, |r.cells|) == Wrap(v, |r.cells|);
      }
    }
  }

  /** Below the lower bound the target's slot is all that can be read, whatever it still holds. */
  lemma RewindBelow(r: LiveRing, version: nat)
    requires version < r.lb <= r.nv <= INVALID_BLOCK_NUM && version + 1 < r.nv && r.nv - 1 - version <= |r.cells|
    ensures var s := Rewind(r, version);
            && s.lb == version && s.nv == version + 1
            && Entry(s, version) == if r.nv - 1 - version < |r.cells| then Entry(r, version) else INVALID_OFFSET
  {
    var n := r.nv - 1 - version;
    EraseFromBound(r, version + 1, n);
    EraseFromSlot(r, version + 1, n, version);
    CutBelow(EraseFrom(r, version + 1, n), version);
  }

  lemma CutBelow(s: LiveRing, version: nat)
    requires version < s.lb && version + 1 < s.nv <= INVALID_BLOCK_NUM
    ensures var t := Raise(Cut(s, version), INVALID_BLOCK_NUM);
            t.lb == version && t.nv == version + 1 && t.cells == s.cells
  {
  }

  /** What a rewind that passes the assertions leaves readable: from a live version on down, everything up to it; below
      the lower bound, the target itself if its slot is neither blank nor shared with an erased version. */
  lemma RewindView(r: LiveRing, version: nat)
    requires Windowed(r) && version + 1 < r.nv <= INVALID_BLOCK_NUM && r.nv - 1 - version <= |r.cells|
    ensures var s := Rewind(r, version);
            && s.nv == version + 1 && Windowed(s)
            && View(s) == (if r.lb <= version then UpTo(View(r), version)
                           else if r.nv - 1 - version < |r.cells| && Entry(r, version) != INVALID_OFFSET
                           then map[version := Entry(r, version)] else map[])
            && Lowest(View(s), version + 1, s.lb)
  {
    if r.lb <= version {
      RewindLive(r, version);
    } else {
      RewindBelow(r, version);
      var s := Rewind(r, version);
      assert forall v :: v in View(s) ==> v == version;
    }
  }

  // ---------------------------------------------------------------- fast forward

  lemma {:induction false} PushBlanksEntry(r: LiveRing, n: nat, v: nat)
    requires n <= |r.cells|
    ensures Entry(PushBlanks(r, n), v) == INVALID_OFFSET || Entry(PushBlanks(r, n), v) == Entry(r, v)
    ensures (forall j :: r.nv <= j < r.nv + n ==> Wrap(v, |r.cells|) != Wrap(j, |r.cells|)) ==>
              Entry(PushBlanks(r, n), v) == Entry(r, v)
    ensures (exists j :: r.nv <= j < r.nv + n && Wrap(v, |r.cells|) == Wrap(j, |r.cells|)) ==>
              Entry(PushBlanks(r, n), v) == INVALID_OFFSET
  {
    if n != 0 {
      PushBlanksEntry(r, n - 1, v);
    }
  }

  /** Moving forward: below the capacity exactly the versions that still fit stay readable,
      at their offsets; otherwise none does.  No version reads through a reused slot. */
  lemma FastForwardView(r: LiveRing, version: nat)
    requires Windowed(r) && r.nv <= version
    ensures var s := FastForward(r, version);
            && s.nv == version && s.lb == (if 0 < r.nv && version - (r.nv - 1) < |r.cells| then r.lb else version)
            && View(s) == (if 0 < r.nv && version - (r.nv - 1) < |r.cells|
                           then map v | v in View(r) && version <= v + |r.cells| :: View(r)[v] else map[])
            && forall v :: Get(s, v) == INVALID_OFFSET || Get(s, v) == Get(r, v)
  {
    var cap := |r.cells|;
    if 0 < r.nv && version - (r.nv - 1) < cap {
      var n := version - r.nv;
      var s := PushBlanks(r, n);
      forall v | r.lb <= v < version
        ensures Entry(s, v) == if v < r.nv && version <= v + cap then Entry(r, v) else INVALID_OFFSET
      {
        PushBlanksEntry(r, n, v);
        if v < r.nv && version <= v + cap {
          forall j | r.nv <= j < version ensures Wrap(v, cap) != Wrap(j, cap) {
            DistinctSlots(r, v, j);
          }
        } else if v < r.nv {
          assert Wrap(v + cap, cap) == Wrap(v, cap);
          assert r.nv <= v + cap < version;
        } else {
          assert Wrap(v, cap) == Wrap(v, cap);
        }
      }
      assert View(s) == map v | v in View(r) && version <= v + cap :: View(r)[v];
    } else {
      assert View(ResetAll(r, version)) == map[];
    }
  }

  // ---------------------------------------------------------------- clearing a prefix of the history

  /** Erase from the lower bound upwards until `version` is passed or the ring is empty. */
  function ClearUpTo(r: LiveRing, version: nat): LiveRing
    requires Windowed(r) && r.nv <= INVALID_BLOCK_NUM && (r.nv == 0 || r.lb < r.nv)
    decreases r.nv - r.lb
  {
    if r.nv != 0 && r.lb <= version then
      EraseView(r, r.lb);
      ClearUpTo(Update(r, r.lb, INVALID_OFFSET), version)
    else r
  }

  /** No version up to the bound stays readable and every later one is unchanged. */
  lemma {:induction false} ClearUpToView(r: LiveRing, version: nat)
    requires Windowed(r) && r.nv <= INVALID_BLOCK_NUM && (r.nv == 0 || r.lb < r.nv)
    ensures View(ClearUpTo(r, version)) == map v | v in View(r) && version < v :: View(r)[v]
    decreases r.nv - r.lb
  {
    if r.nv != 0 && r.lb <= version {
      EraseView(r, r.lb);
      var s := Update(r, r.lb, INVALID_OFFSET);
      ClearUpToView(s, version);
      assert View(s) == View(r) - {r.lb};
    } else {
      assert forall v :: v in View(r) ==> version < v || r.nv == 0;
    }
  }

  /** Where the bounds end: both at zero if the newest version was to be cleared, otherwise the lower one at the least
      version still readable. */
  lemma {:induction false} ClearUpToBounds(r: LiveRing, version: nat)
    requires Windowed(r) && r.nv <= INVALID_BLOCK_NUM && (r.nv == 0 || r.lb < r.nv)
    ensures var s := ClearUpTo(r, version);
            if r.nv == 0 || version < r.lb then s == r
            else if r.nv <= version + 1 then s.nv == 0 && s.lb == 0
            else s.nv == r.nv && version < s.lb && Lowest(View(s), s.nv, s.lb)
    decreases r.nv - r.lb
  {
    if r.nv != 0 && r.lb <= version {
      EraseView(r, r.lb);
      ClearUpToBounds(Update(r, r.lb, INVALID_OFFSET), version);
    }
  }

  function Iterate(r: LiveRing, n: nat): LiveRing {
    if n == 0 then r else Update(Iterate(r, n - 1), Iterate(r, n - 1).lb, INVALID_OFFSET)
  }

  /** The loop ends only from an empty ring or a proper window: with the lower bound at a
      positive next version, its guard still holds after any number of rounds. */
  lemma {:induction false} ClearNeverEnds(r: LiveRing, version: nat, n: nat)
    requires 0 < r.nv == r.lb <= version && r.nv <= INVALID_BLOCK_NUM
    ensures var s := Iterate(r, n); s.nv != 0 && s.lb <= version && s.lb == r.lb && s.nv == r.nv
  {
    if n != 0 {
      ClearNeverEnds(r, version, n - 1);
      var s := Iterate(r, n - 1);
      ScanFinds(Put(s, s.lb, INVALID_OFFSET), s.lb, s.nv - 1);
    }
  }

  // ---------------------------------------------------------------- the two copies

  datatype Copies = Copies(c0: LiveRing, c1: LiveRing)

  datatype Call = AppendCall(o: Offset) | FastForwardCall(v: nat) | UpdateCall(i: nat, o: Offset)

  /** Each call works on copy 0 and then on copy 1.  The reset test of an update reads the
      bounds of copy 0 both times. */
  function Step(c: Copies, call: Call): Copies {
    match call
    case AppendCall(o) => Copies(Push(c.c0, o), Push(c.c1, o))
    case FastForwardCall(v) =>
      if c.c0.nv <= v && c.c1.nv <= v then Copies(FastForward(c.c0, v), FastForward(c.c1, v)) else c
    case UpdateCall(i, o) =>
      var s0 := Update(c.c0, i, o);
      var a1 := Assign(c.c1, i, o);
      var s1 := if o == INVALID_OFFSET && 0 < s0.nv && i == s0.nv - 1 && i == s0.lb then ResetAll(a1, 0) else a1;
      Copies(s0, s1)
  }

  function Steps(c: Copies, calls: seq<Call>): Copies {
    if calls == [] then c else Step(Steps(c, calls[..|calls| - 1]), calls[|calls| - 1])
  }

  /** Nothing that the erasure of version `i` leaves is readable. */
  predicate OthersBlank(r: LiveRing, i: nat) {
    forall v :: r.lb <= v < i && Wrap(v, |r.cells|) != Wrap(i, |r.cells|) ==> Entry(r, v) == INVALID_OFFSET
  }

  /** The update erases the newest version and no other one is readable. */
  predicate ErasesLast(r: LiveRing, call: Call) {
    call.UpdateCall? && call.o == INVALID_OFFSET && call.i + 1 == r.nv && r.lb <= call.i && OthersBlank(r, call.i)
  }

  /** On a window whose versions do not share slots: at most the erased version was readable. */
  lemma OthersBlankIff(r: LiveRing, i: nat)
    requires Windowed(r) && i + 1 == r.nv && r.lb <= i
    ensures OthersBlank(r, i) <==> View(r).Keys <= {i}
  {
    forall v | r.lb <= v < i ensures Wrap(v, |r.cells|) != Wrap(i, |r.cells|) {
      DistinctSlots(r, v, i);
    }
    if View(r).Keys <= {i} {
      forall v | r.lb <= v < i ensures Entry(r, v) == INVALID_OFFSET {
        assert v !in View(r).Keys;
      }
    }
  }

  /** The lower bound ends at the newest version exactly when nothing below it is readable. */
  lemma EraseLast(r: LiveRing, i: nat)
    requires i + 1 == r.nv <= INVALID_BLOCK_NUM
    ensures Assign(r, i, INVALID_OFFSET).lb == i <==> r.lb <= i && OthersBlank(r, i)
  {
    var s := Put(r, i, INVALID_OFFSET);
    ScanFinds(s, if INVALID_BLOCK_NUM < s.lb then INVALID_BLOCK_NUM else s.lb, i);
    forall v | r.lb <= v < i
      ensures Entry(s, v) == if Wrap(v, |r.cells|) == Wrap(i, |r.cells|) then INVALID_OFFSET else Entry(r, v)
    {
      PutEntry(r, i, INVALID_OFFSET, v);
    }
    if r.lb <= i {
      assert Assign(r, i, INVALID_OFFSET).lb == Scan(s, r.lb, i);
    }
  }

  /** Equal copies stay equal exactly when the call does not erase the last readable version; then copy 0 is reset and
      copy 1 is not, for an update never resets copy 1. */
  lemma StepEqualIff(r: LiveRing, call: Call)
    requires r.nv <= INVALID_BLOCK_NUM
    ensures var s := Step(Copies(r, r), call); s.c0 == s.c1 <==> !ErasesLast(r, call)
    ensures ErasesLast(r, call) ==>
              var s := Step(Copies(r, r), call); s.c0 == ResetAll(r, 0) && s.c1.nv == r.nv && s.c1.lb == call.i
    ensures forall c: Copies :: call.UpdateCall? ==> Step(c, call).c1 == Assign(c.c1, call.i, call.o)
  {
    if call.UpdateCall? && call.i + 1 == r.nv {
      EraseLast(r, call.i);
      assert ResetAll(Assign(r, call.i, INVALID_OFFSET), 0) == ResetAll(r, 0);
    }
  }

  /** Over every run the copies agree as long as no call erased the last readable version. */
  lemma {:induction false} CopiesAgree(r: LiveRing, calls: seq<Call>)
    requires forall n :: 0 <= n < |calls| ==>
                           var c := Steps(Copies(r, r), calls[..n]).c0;
                           c.nv <= INVALID_BLOCK_NUM && !ErasesLast(c, calls[n])
    ensures var s := Steps(Copies(r, r), calls); s.c0 == s.c1
  {
    if calls != [] {
      var rest := calls[..|calls| - 1];
      forall n | 0 <= n < |rest|
        ensures var c := Steps(Copies(r, r), rest[..n]).c0; c.nv <= INVALID_BLOCK_NUM && !ErasesLast(c, rest[n])
      {
        assert rest[..n] == calls[..n];
      }
      CopiesAgree(r, rest);
      var s := Steps(Copies(r, r), rest);
      StepEqualIff(s.c0, calls[|calls| - 1]);
    }
  }

  /** Clearing works on both copies and tests copy 0. */
  function ClearBoth(c: Copies, version: nat): (d: Copies)
    requires Windowed(c.c0) && c.c0.nv <= INVALID_BLOCK_NUM && (c.c0.nv == 0 || c.c0.lb < c.c0.nv)
    ensures d.c0 == ClearUpTo(c.c0, version)
    decreases c.c0.nv - c.c0.lb
  {
    if c.c0.nv != 0 && c.c0.lb <= version then
      EraseView(c.c0, c.c0.lb);
      ClearBoth(Step(c, UpdateCall(c.c0.lb, INVALID_OFFSET)), version)
    else c
  }

  /** Equal copies are equal afterwards exactly when the newest version was not to be cleared; either way copy 1 has
      lost exactly the versions up to the bound. */
  lemma {:induction false} ClearBothIff(r: LiveRing, version: nat)
    requires Windowed(r) && r.nv <= INVALID_BLOCK_NUM && (r.nv == 0 || r.lb < r.nv)
    ensures var c := ClearBoth(Copies(r, r), version);
            && (c.c0 == c.c1 <==> r.nv == 0 || version + 1 < r.nv)
            && View(c.c1) == (map v | v in View(r) && version < v :: View(r)[v])
            && c.c1.nv == r.nv && (r.nv != 0 && r.lb <= version ==> Lowest(View(c.c1), r.nv, c.c1.lb))
    decreases r.nv - r.lb
  {
    if r.nv != 0 && r.lb <= version {
      var s := Step(Copies(r, r), UpdateCall(r.lb, INVALID_OFFSET));
      EraseView(r, r.lb);
      assert s.c1 == Assign(r, r.lb, INVALID_OFFSET);
      if r.lb + 1 < r.nv {
        assert s == Copies(s.c1, s.c1);
        ClearBothIff(s.c1, version);
        ClearedMore(View(r), View(s.c1), r.lb, version);
      } else {
        assert ClearBoth(s, version) == s;
      }
    }
  }

  lemma ClearedMore(m: map<nat, Offset>, m': map<nat, Offset>, i: nat, version: nat)
    requires m' == m - {i} && i <= version
    ensures (map v | v in m' && version < v :: m'[v]) == map v | v in m && version < v :: m[v]
  {
  }

  // ---------------------------------------------------------------- new rings on which it happens

  /** The ring of a new pool. */
  function NewRing(cap: Pos): LiveRing {
    RingState(0, 0, Blank(cap))
  }

  /** One version appended to a new pool and erased again: copy 0 is empty, copy 1 still has a next version. */
  lemma NewRingSplits(cap: Pos, o: Offset)
    requires o != INVALID_OFFSET
    ensures var r := NewRing(cap);
            var s := Step(Step(Copies(r, r), AppendCall(o)), UpdateCall(0, INVALID_OFFSET));
            s.c0 == r && s.c1 != r && s.c1.nv == 1
  {
    var r := NewRing(cap);
    var p := Push(r, o);
    assert Wrap(0, cap) == 0;
    assert p.lb == 0 && p.nv == 1;
    StepEqualIff(p, UpdateCall(0, INVALID_OFFSET));
  }

  /** A new pool moved forward before its first version: clearing its history up to there does not end. */
  lemma NewRingNeverCleared(cap: Pos, version: nat, n: nat)
    requires 0 < version <= INVALID_BLOCK_NUM
    ensures var s := Iterate(FastForward(NewRing(cap), version), n); s.nv != 0 && s.lb <= version
  {
    ClearNeverEnds(FastForward(NewRing(cap), version), version, n);
  }

  /** Appending `n` times. */
  function PushMany(r: LiveRing, o: Offset, n: nat): LiveRing {
    if n == 0 then r else Push(PushMany(r, o, n - 1), o)
  }

  lemma {:induction false} PushManyIs(cap: Pos, o: Offset, n: nat)
    requires n <= cap && cap < INVALID_BLOCK_NUM && o != INVALID_OFFSET
    ensures var s := PushMany(NewRing(cap), o, n);
            s.lb == 0 && s.nv == n && |s.cells| == cap && (0 < n ==> Entry(s, 0) == o)
  {
    if n != 0 {
      PushManyIs(cap, o, n - 1);
      var p := PushMany(NewRing(cap), o, n - 1);
      if n != 1 {
        DistinctSlots(p, 0, n - 1);
      }
      assert Entry(Put(p, n - 1, o), 0) == o;
    }
  }

  /** One append more than a new ring has room for: version 0 reads the new offset. */
  lemma NewRingOverwrites(cap: Pos, o: Offset, o': Offset)
    requires cap < INVALID_BLOCK_NUM && o != INVALID_OFFSET && o' != INVALID_OFFSET && o != o'
    ensures var s := PushMany(NewRing(cap), o, cap);
            Get(s, 0) == o && Get(Push(s, o'), 0) == o' && View(Push(s, o')) != View(s)[s.nv := o']
  {
    PushManyIs(cap, o, cap);
    PushFullIff(PushMany(NewRing(cap), o, cap), o');
  }
}
