/**
 The calls on a root-offsets ring as the stores they make, and what is left of them when the
 process dies.  Recovery reinstates a dirty header from the other copy but not the ring
 entries, so a call that dies in its first scope leaves the old bounds over new entries.
 */
module RingCalls {
  import opened Disk
  import opened RootOffsets

  /** One store of the delegator: an entry of the ring, or one of its two bounds. */
  datatype RingStore = SetEntry(p: nat, o: Offset) | SetLower(v: nat) | SetNext(v: nat)

  predicate Fits(cap: nat, ss: seq<RingStore>) {
    forall s :: s in ss && s.SetEntry? ==> s.p < cap
  }

  function PerformOne(r: LiveRing, s: RingStore): (t: LiveRing)
    requires s.SetEntry? ==> s.p < |r.cells|
    ensures |t.cells| == |r.cells|
  {
    match s
    case SetEntry(p, o) => r.(cells := r.cells[p := o])
    case SetLower(v) => r.(lb := v)
    case SetNext(v) => r.(nv := v)
  }

  function Perform(r: LiveRing, ss: seq<RingStore>): (t: LiveRing)
    requires Fits(|r.cells|, ss)
    ensures |t.cells| == |r.cells|
  {
    if ss == [] then r else PerformOne(Perform(r, ss[..|ss| - 1]), ss[|ss| - 1])
  }

  lemma {:induction false} PerformAppend(r: LiveRing, a: seq<RingStore>, b: seq<RingStore>)
    requires Fits(|r.cells|, a) && Fits(|r.cells|, b)
    ensures Fits(|r.cells|, a + b) && Perform(r, a + b) == Perform(Perform(r, a), b)
  {
    if b == [] {
      assert a + b == a;
    } else {
      var n := |b| - 1;
      assert (a + b)[..|a + b| - 1] == a + b[..n];
      PerformAppend(r, a, b[..n]);
    }
  }

  lemma PerformTwo(r: LiveRing, s: RingStore, t: RingStore)
    requires Fits(|r.cells|, [s, t])
    ensures Perform(r, [s, t]) == PerformOne(PerformOne(r, s), t)
    ensures Perform(r, [s]) == PerformOne(r, s)
  {
    assert s in [s, t] && t in [s, t];
    assert [s, t][..1] == [s] && [s][..0] == [];
    assert Perform(r, [s]) == PerformOne(Perform(r, []), s);
    assert Perform(r, [s, t]) == PerformOne(Perform(r, [s, t][..1]), t);
  }

  // ---------------------------------------------------------------- the calls

  /** `memset` with 0xff of the first `n` entries. */
  function BlankStores(n: nat): (ss: seq<RingStore>)
    ensures |ss| == n && forall p :: 0 <= p < n ==> ss[p] == SetEntry(p, INVALID_OFFSET)
  {
    seq(n, (p: nat) => SetEntry(p, INVALID_OFFSET))
  }

  function ResetStores(cap: nat, v: nat): seq<RingStore> {
    [SetLower(0), SetNext(0)] + BlankStores(cap) + [SetLower(v), SetNext(v)]
  }

  function LowerStores(from: nat, to: nat): seq<RingStore> {
    if from == to then [] else [SetLower(to)]
  }

  function PushStores(r: LiveRing, o: Offset): seq<RingStore> {
    [SetEntry(Wrap(r.nv, |r.cells|), o), SetNext(r.nv + 1)] + LowerStores(r.lb, Push(r, o).lb)
  }

  function AssignStores(r: LiveRing, i: nat, o: Offset): seq<RingStore> {
    [SetEntry(Wrap(i, |r.cells|), o)] + LowerStores(r.lb, Assign(r, i, o).lb)
  }

  function PushBlankStores(r: LiveRing, n: nat): seq<RingStore> {
    if n == 0 then []
    else PushBlankStores(r, n - 1) + [SetEntry(Wrap(r.nv + n - 1, |r.cells|), INVALID_OFFSET), SetNext(r.nv + n)]
  }

  predicate ForwardResets(r: LiveRing, v: nat) {
    r.nv == 0 || v - (r.nv - 1) >= |r.cells|
  }

  function FastForwardStores(r: LiveRing, v: nat): seq<RingStore>
    requires r.nv <= v
  {
    if ForwardResets(r, v) then ResetStores(|r.cells|, v) else PushBlankStores(r, v - r.nv)
  }

  /** The reset test of an update reads copy 0, whose bounds are those of `s`. */
  predicate UpdateResets(s: LiveRing, i: nat, o: Offset) {
    o == INVALID_OFFSET && 0 < s.nv && i == s.nv - 1 && i == s.lb
  }

  function UpdateStores(r: LiveRing, i: nat, o: Offset, reset: bool): seq<RingStore> {
    AssignStores(r, i, o) + if reset then ResetStores(|r.cells|, 0) else []
  }

  /** What the call asserts of both copies. */
  predicate Accepts(c: Copies, call: Call) {
    call.FastForwardCall? ==> c.c0.nv <= call.v && c.c1.nv <= call.v
  }

  function Stores0(c: Copies, call: Call): seq<RingStore>
    requires Accepts(c, call)
  {
    match call
    case AppendCall(o) => PushStores(c.c0, o)
    case FastForwardCall(v) => FastForwardStores(c.c0, v)
    case UpdateCall(i, o) => UpdateStores(c.c0, i, o, UpdateResets(Assign(c.c0, i, o), i, o))
  }

  function Stores1(c: Copies, call: Call): seq<RingStore>
    requires Accepts(c, call)
  {
    match call
    case AppendCall(o) => PushStores(c.c1, o)
    case FastForwardCall(v) => FastForwardStores(c.c1, v)
    case UpdateCall(i, o) => UpdateStores(c.c1, i, o, UpdateResets(Update(c.c0, i, o), i, o))
  }

  // ---------------------------------------------------------------- they perform the call

  lemma {:induction false} BlankPerforms(r: LiveRing, n: nat)
    requires n <= |r.cells|
    ensures Fits(|r.cells|, BlankStores(n))
    ensures Perform(r, BlankStores(n)) == r.(cells := Blank(n) + r.cells[n..])
  {
    var ss := BlankStores(n);
    if n == 0 {
      assert Blank(0) + r.cells[0..] == r.cells;
    } else {
      assert ss[..n - 1] == BlankStores(n - 1);
      BlankPerforms(r, n - 1);
      var t := Blank(n - 1) + r.cells[n - 1..];
      assert t[n - 1 := INVALID_OFFSET] == Blank(n) + r.cells[n..];
    }
  }

  lemma ResetPerforms(r: LiveRing, v: nat)
    ensures Fits(|r.cells|, ResetStores(|r.cells|, v))
    ensures Perform(r, ResetStores(|r.cells|, v)) == ResetAll(r, v)
  {
    var cap := |r.cells|;
    var a, b := [SetLower(0), SetNext(0)], [SetLower(v), SetNext(v)];
    var r1 := r.(lb := 0, nv := 0);
    PerformTwo(r, SetLower(0), SetNext(0));
    BlankPerforms(r1, cap);
    PerformAppend(r, a, BlankStores(cap));
    var r2 := r1.(cells := Blank(cap));
    assert Blank(cap) + r1.cells[cap..] == Blank(cap);
    PerformTwo(r2, SetLower(v), SetNext(v));
    PerformAppend(r, a + BlankStores(cap), b);
  }

  lemma LowerPerforms(r: LiveRing, to: nat)
    ensures Perform(r, LowerStores(r.lb, to)) == r.(lb := to)
  {
    if r.lb != to {
      PerformTwo(r, SetLower(to), SetLower(to));
    }
  }

  lemma PushPerforms(r: LiveRing, o: Offset)
    ensures Fits(|r.cells|, PushStores(r, o)) && Perform(r, PushStores(r, o)) == Push(r, o)
  {
    PushTo(r, o, Push(r, o).lb);
    PushIs(r, o);
  }

  lemma PushIs(r: LiveRing, o: Offset)
    ensures Push(r, o) == RootOffsets.Put(r, r.nv, o).(nv := r.nv + 1, lb := Push(r, o).lb)
  {
  }

  lemma PushTo(r: LiveRing, o: Offset, to: nat)
    ensures var ss := [SetEntry(Wrap(r.nv, |r.cells|), o), SetNext(r.nv + 1)] + LowerStores(r.lb, to);
            Fits(|r.cells|, ss) && Perform(r, ss) == RootOffsets.Put(r, r.nv, o).(nv := r.nv + 1, lb := to)
  {
    var p := Wrap(r.nv, |r.cells|);
    var s := RootOffsets.Put(r, r.nv, o).(nv := r.nv + 1);
    PerformTwo(r, SetEntry(p, o), SetNext(r.nv + 1));
    LowerPerforms(s, to);
    PerformAppend(r, [SetEntry(p, o), SetNext(r.nv + 1)], LowerStores(r.lb, to));
  }

  lemma AssignPerforms(r: LiveRing, i: nat, o: Offset)
    ensures Fits(|r.cells|, AssignStores(r, i, o)) && Perform(r, AssignStores(r, i, o)) == Assign(r, i, o)
  {
    var p := Wrap(i, |r.cells|);
    PerformTwo(r, SetEntry(p, o), SetEntry(p, o));
    LowerPerforms(RootOffsets.Put(r, i, o), Assign(r, i, o).lb);
    PerformAppend(r, [SetEntry(p, o)], LowerStores(r.lb, Assign(r, i, o).lb));
  }

  lemma {:induction false} PushBlanksPerform(r: LiveRing, n: nat)
    ensures Fits(|r.cells|, PushBlankStores(r, n)) && Perform(r, PushBlankStores(r, n)) == PushBlanks(r, n)
  {
    if n != 0 {
      PushBlanksPerform(r, n - 1);
      var s := PushBlanks(r, n - 1);
      var p := Wrap(r.nv + n - 1, |r.cells|);
      PerformTwo(s, SetEntry(p, INVALID_OFFSET), SetNext(r.nv + n));
      PerformAppend(r, PushBlankStores(r, n - 1), [SetEntry(p, INVALID_OFFSET), SetNext(r.nv + n)]);
    }
  }

  lemma ForwardPushes(r: LiveRing, v: nat, n: nat)
    requires r.nv + n == v && !ForwardResets(r, v)
    ensures FastForwardStores(r, v) == PushBlankStores(r, n) && FastForward(r, v) == PushBlanks(r, n)
  {
  }

  lemma FastForwardPerforms(r: LiveRing, v: nat)
    requires r.nv <= v
    ensures Fits(|r.cells|, FastForwardStores(r, v)) && Perform(r, FastForwardStores(r, v)) == FastForward(r, v)
  {
    var n := v - r.nv;
    if ForwardResets(r, v) {
      ResetPerforms(r, v);
      assert FastForwardStores(r, v) == ResetStores(|r.cells|, v) && FastForward(r, v) == ResetAll(r, v);
    } else {
      ForwardPushes(r, v, n);
      PushBlanksPerform(r, n);
    }
  }

  lemma UpdatePerforms(r: LiveRing, i: nat, o: Offset, reset: bool)
    ensures Fits(|r.cells|, UpdateStores(r, i, o, reset))
    ensures Perform(r, UpdateStores(r, i, o, reset)) == if reset then ResetAll(r, 0) else Assign(r, i, o)
  {
    AssignPerforms(r, i, o);
    if reset {
      ResetPerforms(Assign(r, i, o), 0);
      PerformAppend(r, AssignStores(r, i, o), ResetStores(|r.cells|, 0));
    } else {
      assert AssignStores(r, i, o) + [] == AssignStores(r, i, o);
    }
  }

  /** The stores of each copy take its ring where the call takes it. */
  lemma StoresPerform(c: Copies, call: Call)
    requires Accepts(c, call)
    ensures Fits(|c.c0.cells|, Stores0(c, call)) && Perform(c.c0, Stores0(c, call)) == Step(c, call).c0
    ensures Fits(|c.c1.cells|, Stores1(c, call)) && Perform(c.c1, Stores1(c, call)) == Step(c, call).c1
  {
    match call
    case AppendCall(o) =>
      PushPerforms(c.c0, o);
      PushPerforms(c.c1, o);
    case FastForwardCall(v) =>
      FastForwardPerforms(c.c0, v);
      FastForwardPerforms(c.c1, v);
    case UpdateCall(i, o) =>
      UpdatePerforms(c.c0, i, o, UpdateResets(Assign(c.c0, i, o), i, o));
      UpdatePerforms(c.c1, i, o, UpdateResets(Update(c.c0, i, o), i, o));
  }

  // ---------------------------------------------------------------- dying in the first scope

  /** The old bounds over the entries after `j` stores. */
  function RolledBack(r: LiveRing, ss: seq<RingStore>, j: nat): LiveRing
    requires Fits(|r.cells|, ss) && j <= |ss|
  {
    Perform(r, ss[..j]).(lb := r.lb, nv := r.nv)
  }

  /** No query on the ring's timeline tells the two rings apart. */
  ghost predicate AnswerAlike(r: LiveRing, s: LiveRing) {
    r.nv == s.nv && (r.nv != 0 ==> r.lb == s.lb) && forall v :: Get(r, v) == Get(s, v)
  }

  /** Wherever it dies, the ring reads as before the call or as after it. */
  ghost predicate Survives(r: LiveRing, ss: seq<RingStore>)
    requires Fits(|r.cells|, ss)
  {
    forall j :: 0 <= j <= |ss| ==>
                  AnswerAlike(RolledBack(r, ss, j), r) || AnswerAlike(RolledBack(r, ss, j), Perform(r, ss))
  }

  /** Entries of the window that no store of `ss` changes into something else. */
  lemma {:induction false} EntryKept(r: LiveRing, ss: seq<RingStore>, p: nat)
    requires Fits(|r.cells|, ss) && p < |r.cells|
    requires forall s :: s in ss && s.SetEntry? && s.p == p ==> s.o == r.cells[p]
    ensures Perform(r, ss).cells[p] == r.cells[p]
  {
    if ss != [] {
      EntryKept(r, ss[..|ss| - 1], p);
      assert ss[|ss| - 1] in ss;
    }
  }

  /** A store that some later one of the same entry may only repeat. */
  lemma {:induction false} EntrySet(r: LiveRing, ss: seq<RingStore>, p: nat, o: Offset, i: nat)
    requires Fits(|r.cells|, ss) && i < |ss| && ss[i] == SetEntry(p, o) && p < |r.cells|
    requires forall s :: s in ss && s.SetEntry? && s.p == p ==> s.o == o
    ensures Perform(r, ss).cells[p] == o
  {
    var n := |ss| - 1;
    if i < n {
      EntrySet(r, ss[..n], p, o, i);
      assert ss[n] in ss;
    }
  }

  /** If no store changes an entry of the window, the call leaves the old answers wherever it dies. */
  lemma QuietSurvives(r: LiveRing, ss: seq<RingStore>)
    requires Fits(|r.cells|, ss)
    requires forall v, s :: r.lb <= v < r.nv && s in ss && s.SetEntry? && s.p == Wrap(v, |r.cells|) ==>
                              s.o == Entry(r, v)
    ensures Survives(r, ss)
  {
    forall j | 0 <= j <= |ss| ensures AnswerAlike(RolledBack(r, ss, j), r) {
      forall v | r.lb <= v < r.nv ensures Entry(RolledBack(r, ss, j), v) == Entry(r, v) {
        EntryKept(r, ss[..j], Wrap(v, |r.cells|));
      }
    }
  }

  // ---------------------------------------------------------------- when the calls survive it

  lemma PushStoresAre(r: LiveRing, o: Offset, s: RingStore)
    requires s in PushStores(r, o) && s.SetEntry?
    ensures s == SetEntry(Wrap(r.nv, |r.cells|), o)
  {
  }

  /** An append is all or nothing exactly when the window has room for it, or the entry it overwrites is the same. */
  lemma AppendSurvivesIff(r: LiveRing, o: Offset)
    requires Windowed(r)
    ensures Fits(|r.cells|, PushStores(r, o))
    ensures Survives(r, PushStores(r, o)) <==> r.nv < r.lb + |r.cells| || Entry(r, r.lb) == o
  {
    var ss, cap := PushStores(r, o), |r.cells|;
    PushPerforms(r, o);
    if r.nv < r.lb + cap || Entry(r, r.lb) == o {
      forall v, s | r.lb <= v < r.nv && s in ss && s.SetEntry? && s.p == Wrap(v, cap) ensures s.o == Entry(r, v) {
        PushStoresAre(r, o, s);
        if v != r.lb || r.nv < r.lb + cap {
          DistinctSlots(r, v, r.nv);
        }
      }
      QuietSurvives(r, ss);
    } else {
      assert ss[..1] == [ss[0]];
      PerformTwo(r, ss[0], ss[0]);
      assert Wrap(r.nv, cap) == Wrap(r.lb, cap);
      assert Get(RolledBack(r, ss, 1), r.lb) == o;
      assert !AnswerAlike(RolledBack(r, ss, 1), r);
      assert RolledBack(r, ss, 1).nv != Perform(r, ss).nv;
    }
  }

  lemma UpdateStoresAre(r: LiveRing, i: nat, o: Offset, reset: bool, s: RingStore)
    requires s in UpdateStores(r, i, o, reset) && s.SetEntry?
    ensures s == SetEntry(Wrap(i, |r.cells|), o) || (reset && s.o == INVALID_OFFSET)
  {
  }

  /** Replacing or erasing a live version is all or nothing exactly when nothing changes, or both bounds stay. */
  lemma UpdateSurvivesIff(r: LiveRing, i: nat, o: Offset)
    requires Windowed(r) && r.lb <= i < r.nv <= INVALID_BLOCK_NUM
    ensures var ss := UpdateStores(r, i, o, UpdateResets(Assign(r, i, o), i, o));
            Fits(|r.cells|, ss) &&
            (Survives(r, ss) <==>
             Entry(r, i) == o || (Update(r, i, o).lb == r.lb && Update(r, i, o).nv == r.nv))
  {
    var reset := UpdateResets(Assign(r, i, o), i, o);
    var ss, cap := UpdateStores(r, i, o, reset), |r.cells|;
    UpdatePerforms(r, i, o, reset);
    assert ss[..1] == [ss[0]];
    PerformTwo(r, ss[0], ss[0]);
    if Entry(r, i) == o {
      UpdateRepeats(r, i, o, reset);
    } else if Update(r, i, o).lb == r.lb && Update(r, i, o).nv == r.nv {
      assert ss == [ss[0]];
      assert RolledBack(r, ss, 1) == Perform(r, ss);
      forall j | 0 <= j <= |ss|
        ensures AnswerAlike(RolledBack(r, ss, j), r) || AnswerAlike(RolledBack(r, ss, j), Perform(r, ss))
      {
        assert j == 0 || j == 1;
      }
    } else {
      assert Get(RolledBack(r, ss, 1), i) == o;
      assert !AnswerAlike(RolledBack(r, ss, 1), r);
      assert !AnswerAlike(RolledBack(r, ss, 1), Perform(r, ss));
    }
  }

  lemma UpdateRepeats(r: LiveRing, i: nat, o: Offset, reset: bool)
    requires Windowed(r) && r.lb <= i < r.nv <= INVALID_BLOCK_NUM && Entry(r, i) == o
    requires reset == UpdateResets(Assign(r, i, o), i, o)
    ensures Fits(|r.cells|, UpdateStores(r, i, o, reset)) && Survives(r, UpdateStores(r, i, o, reset))
  {
    var ss, cap := UpdateStores(r, i, o, reset), |r.cells|;
    UpdatePerforms(r, i, o, reset);
    if reset {
      EraseLast(r, i);
      OthersBlankIff(r, i);
    }
    forall v, s | r.lb <= v < r.nv && s in ss && s.SetEntry? && s.p == Wrap(v, cap) ensures s.o == Entry(r, v) {
      UpdateStoresAre(r, i, o, reset, s);
      if v != i {
        DistinctSlots(r, v, i);
        assert reset ==> v !in View(r).Keys;
      }
    }
    QuietSurvives(r, ss);
  }

  lemma ResetStoresAre(cap: nat, v: nat, s: RingStore)
    requires s in ResetStores(cap, v) && s.SetEntry?
    ensures s.o == INVALID_OFFSET
  {
  }

  lemma {:induction false} PushBlankStoresAre(r: LiveRing, n: nat, s: RingStore)
    requires s in PushBlankStores(r, n) && s.SetEntry?
    ensures s.o == INVALID_OFFSET && exists w :: r.nv <= w < r.nv + n && s.p == Wrap(w, |r.cells|)
  {
    if s in PushBlankStores(r, n - 1) {
      PushBlankStoresAre(r, n - 1, s);
    } else {
      assert s.p == Wrap(r.nv + n - 1, |r.cells|);
    }
  }

  lemma {:induction false} PushBlankStoreOf(r: LiveRing, n: nat, w: nat) returns (i: nat)
    requires r.nv <= w < r.nv + n
    ensures i < |PushBlankStores(r, n)| && PushBlankStores(r, n)[i] == SetEntry(Wrap(w, |r.cells|), INVALID_OFFSET)
  {
    if w == r.nv + n - 1 {
      i := |PushBlankStores(r, n - 1)|;
    } else {
      i := PushBlankStoreOf(r, n - 1, w);
    }
  }

  /** Moving forward is all or nothing exactly when it drops no readable version. */
  lemma FastForwardSurvivesIff(r: LiveRing, v: nat)
    requires Windowed(r) && r.nv <= v
    ensures Fits(|r.cells|, FastForwardStores(r, v))
    ensures Survives(r, FastForwardStores(r, v)) <==> View(FastForward(r, v)) == View(r)
  {
    FastForwardPerforms(r, v);
    FastForwardView(r, v);
    if ForwardResets(r, v) {
      ResetSurvivesIff(r, v);
    } else {
      PushBlanksSurviveIff(r, v);
    }
  }

  lemma ResetSurvivesIff(r: LiveRing, v: nat)
    requires Windowed(r) && r.nv <= v
    ensures Fits(|r.cells|, ResetStores(|r.cells|, v))
    ensures Survives(r, ResetStores(|r.cells|, v)) <==> View(r) == map[]
  {
    var ss, cap := ResetStores(|r.cells|, v), |r.cells|;
    ResetPerforms(r, v);
    if View(r) == map[] {
      forall u, s | r.lb <= u < r.nv && s in ss && s.SetEntry? && s.p == Wrap(u, cap) ensures s.o == Entry(r, u) {
        ResetStoresAre(cap, v, s);
        assert u !in View(r);
      }
      QuietSurvives(r, ss);
    } else {
      var u :| u in View(r);
      BlankedAfter(r, v);
      assert Get(RolledBack(r, ss, 2 + cap), u) == INVALID_OFFSET;
      assert !AnswerAlike(RolledBack(r, ss, 2 + cap), r);
      assert !AnswerAlike(RolledBack(r, ss, 2 + cap), Perform(r, ss));
    }
  }

  /** Once the `memset` is done every entry is blank, while the rolled-back bounds are the old ones. */
  lemma BlankedAfter(r: LiveRing, v: nat)
    ensures var ss := ResetStores(|r.cells|, v);
            Fits(|r.cells|, ss) && |ss| == 4 + |r.cells| &&
            RolledBack(r, ss, 2 + |r.cells|) == RingState(r.lb, r.nv, Blank(|r.cells|))
  {
    var ss, cap := ResetStores(|r.cells|, v), |r.cells|;
    ResetPerforms(r, v);
    var a := [SetLower(0), SetNext(0)];
    assert ss[..2 + cap] == a + BlankStores(cap);
    PerformTwo(r, SetLower(0), SetNext(0));
    BlankPerforms(Perform(r, a), cap);
    PerformAppend(r, a, BlankStores(cap));
  }

  lemma PushBlanksSurviveIff(r: LiveRing, v: nat)
    requires Windowed(r) && r.nv <= v && !ForwardResets(r, v)
    ensures Fits(|r.cells|, PushBlankStores(r, v - r.nv))
    ensures Survives(r, PushBlankStores(r, v - r.nv)) <==> forall u :: u in View(r) ==> v <= u + |r.cells|
  {
    var ss, cap, n := PushBlankStores(r, v - r.nv), |r.cells|, v - r.nv;
    PushBlanksPerform(r, n);
    if forall u :: u in View(r) ==> v <= u + cap {
      forall u, s | r.lb <= u < r.nv && s in ss && s.SetEntry? && s.p == Wrap(u, cap) ensures s.o == Entry(r, u) {
        PushBlankReaches(r, n, s, u);
        assert u !in View(r);
      }
      QuietSurvives(r, ss);
    } else {
      var u :| u in View(r) && u + cap < v;
      PushBlankDrops(r, n, u);
    }
  }

  /** A blank is pushed over the slot of a live version only when that version is passed. */
  lemma PushBlankReaches(r: LiveRing, n: nat, s: RingStore, u: nat)
    requires s in PushBlankStores(r, n) && s.SetEntry? && s.p == Wrap(u, |r.cells|) && u < r.nv
    ensures s.o == INVALID_OFFSET && u + |r.cells| < r.nv + n
  {
    PushBlankStoresAre(r, n, s);
    var w :| r.nv <= w < r.nv + n && s.p == Wrap(w, |r.cells|);
    if r.nv + n <= u + |r.cells| {
      DistinctSlots(r, u, w);
    }
  }

  lemma PushBlankDrops(r: LiveRing, n: nat, u: nat)
    requires Windowed(r) && u in View(r) && u + |r.cells| < r.nv + n
    ensures Fits(|r.cells|, PushBlankStores(r, n)) && !Survives(r, PushBlankStores(r, n))
  {
    var ss, cap := PushBlankStores(r, n), |r.cells|;
    PushBlanksPerform(r, n);
    var i := PushBlankStoreOf(r, n, u + cap);
    assert Wrap(u + cap, cap) == Wrap(u, cap);
    forall s | s in ss && s.SetEntry? && s.p == Wrap(u, cap) ensures s.o == INVALID_OFFSET {
      PushBlankStoresAre(r, n, s);
    }
    EntrySet(r, ss, Wrap(u, cap), INVALID_OFFSET, i);
    var t := RolledBack(r, ss, |ss|);
    assert ss[..|ss|] == ss;
    assert Get(t, u) == INVALID_OFFSET;
    assert !AnswerAlike(t, r);
    assert t.nv != Perform(r, ss).nv;
  }

  // ---------------------------------------------------------------- dying between the scopes

  /** A copy that has missed one append stays one version behind through any number of further ones. */
  lemma {:induction false} BehindForGood(c: Copies, calls: seq<Call>)
    requires forall call :: call in calls ==> call.AppendCall?
    ensures var s := Steps(c, calls); s.c0.nv - s.c1.nv == c.c0.nv - c.c1.nv
  {
    if calls != [] {
      BehindForGood(c, calls[..|calls| - 1]);
      assert calls[|calls| - 1] in calls;
    }
  }
}
