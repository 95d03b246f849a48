/**
 Every reachable disk.  The three operations, the calls on the primary timeline and the
 setters come in any order, each is killed anywhere, and so are any number of opens after it.
 Bounds, entries, markers and history lengths of the copies may drift apart on the way; the
 chunk lists and the roles never do.
 */
module Reachability {
  import opened Disk
  import opened Programs
  import opened Phases
  import opened CrashSafety
  import opened CrashTheorems
  import opened Lifecycle
  import opened Agreement
  import opened ClientCalls
  import Setters

  // ---------------------------------------------------------------- headers without versions

  function BareRing(r: Ring): Ring {
    r.(lowerBound := 0, nextVersion := 0, autoExpire := 0)
  }

  /** Chunk lists, roles, intent and history length of a header. */
  function Bare(m: Metadata): Metadata {
    m.(a := BareRing(m.a), b := BareRing(m.b), consensus := Consensus(0, 0, 0, 0, 0, 0))
  }

  /** Stores that a bare header does not show. */
  predicate Versional(f: Field) {
    match f
    case LowerBound(_, _) => true
    case NextVersion(_, _) => true
    case AutoExpire(_, _) => true
    case FinalizedVersion(_) => true
    case VerifiedVersion(_) => true
    case VotedVersion(_) => true
    case VotedBlock(_) => true
    case ProposedVersion(_) => true
    case ProposedBlock(_) => true
    case _ => false
  }

  predicate AllVersional(ws: seq<Write>) {
    forall i :: 0 <= i < |ws| ==> !ws[i].Dirty? && (ws[i].Store? ==> Versional(ws[i].f))
  }

  lemma BarePut(x: Metadata, y: Metadata, f: Field)
    requires Bare(x) == Bare(y)
    ensures Bare(Put(x, f)) == Bare(Put(y, f))
    ensures Versional(f) ==> Bare(Put(x, f)) == Bare(x)
  {
    BareRings(x, y);
  }

  lemma BareRings(x: Metadata, y: Metadata)
    requires Bare(x) == Bare(y)
    ensures x.primary == y.primary && x.active == y.active && x.kind == y.kind && x.param == y.param
    ensures x.historyLength == y.historyLength
    ensures forall i: Bit :: x.ring(i).slots == y.ring(i).slots && x.ring(i).len == y.ring(i).len
  {
    assert Bare(x).a.slots == x.a.slots && Bare(x).b.slots == x.b.slots && Bare(x).a.len == x.a.len
        && Bare(x).b.len == x.b.len;
    assert Bare(y).a.slots == y.a.slots && Bare(y).b.slots == y.b.slots && Bare(y).a.len == y.a.len
        && Bare(y).b.len == y.b.len;
  }

  lemma {:induction false} BareEffect(x: Metadata, y: Metadata, ws: seq<Write>)
    requires Bare(x) == Bare(y)
    ensures Bare(MetaEffect(x, ws)) == Bare(MetaEffect(y, ws))
  {
    if ws != [] {
      var n := |ws| - 1;
      BareEffect(x, y, ws[..n]);
      if ws[n].Store? {
        BarePut(MetaEffect(x, ws[..n]), MetaEffect(y, ws[..n]), ws[n].f);
      }
    }
  }

  lemma {:induction false} VersionalEffect(x: Metadata, ws: seq<Write>)
    requires AllVersional(ws)
    ensures Bare(MetaEffect(x, ws)) == Bare(x)
  {
    if ws != [] {
      var n := |ws| - 1;
      VersionalEffect(x, ws[..n]);
      if ws[n].Store? {
        BarePut(MetaEffect(x, ws[..n]), MetaEffect(x, ws[..n]), ws[n].f);
      }
    }
  }

  // ---------------------------------------------------------------- bodies on bare headers

  lemma {:induction false} BareMoves(c: Bit, x: Metadata, y: Metadata, from: Bit, fromBase: nat, to: Bit, toBase: nat,
                                     n: nat)
    requires Bare(x) == Bare(y)
    ensures MoveSlots(c, x, from, fromBase, to, toBase, n) == MoveSlots(c, y, from, fromBase, to, toBase, n)
  {
    BareRings(x, y);
    if n > 0 {
      BareMoves(c, x, y, from, fromBase, to, toBase, n - 1);
    }
  }

  lemma CellsVersional(c: Bit, span: seq<nat>, e: Pos, lo: nat, n: nat, cells: Cells, oldCap: Pos, newCap: Pos)
    ensures AllVersional(Fill(c, span, e, lo, n))
    ensures AllVersional(Relocate(c, cells, span, e, oldCap, newCap, lo, n))
  {
    CellsOnly(c, span, e, lo, n, cells, oldCap, newCap);
  }

  lemma VersionalAppend(a: seq<Write>, b: seq<Write>)
    requires AllVersional(a) && AllVersional(b)
    ensures AllVersional(a + b)
  {
  }

  /** The part of activation before the chunks move. */
  lemma StartVersional(c: Bit, x: Metadata, mount: Metadata, pi: Bit, cells: Cells, e: Pos, n: Pos)
    ensures AllVersional(ActivateBump(c, x, pi, e, n) + ActivateCopies(c, x, mount, pi, cells, e, n))
  {
    var p := x.ring(pi);
    var lo := RaisedLowerBound(p, Cap(n, e));
    CellsVersional(c, ShrinkSpan(x, mount, pi, n), e, lo, Window(lo, p.nextVersion), cells, 2 * Cap(n, e), Cap(n, e));
    VersionalAppend(ActivateBump(c, x, pi, e, n), ActivateCopies(c, x, mount, pi, cells, e, n));
  }

  lemma DataVersional(c: Bit, x: Metadata, mount: Metadata, pi: Bit, cells: Cells, e: Pos, n: nat)
    ensures AllVersional(DeactivateData(c, x, mount, pi, cells, e, n))
  {
    var p := x.ring(pi);
    if 0 < p.len < n {
      var span, w := GrowSpan(x, mount, pi, n), Window(p.lowerBound, p.nextVersion);
      CellsVersional(c, span, e, Cap(p.len, e), Cap(n - p.len, e), cells, 1, 1);
      CellsVersional(c, span, e, p.lowerBound, w, cells, Cap(p.len, e), Cap(n, e));
      VersionalAppend(Fill(c, span, e, Cap(p.len, e), Cap(n - p.len, e)),
                      Relocate(c, cells, span, e, Cap(p.len, e), Cap(n, e), p.lowerBound, w));
    }
  }

  /** Stores of which only the middle part shows. */
  lemma OnlyMiddle(x: Metadata, a: seq<Write>, b: seq<Write>, c: seq<Write>, d: seq<Write>)
    requires AllVersional(a) && AllVersional(c)
    ensures Bare(MetaEffect(x, a + b + c + d)) == Bare(MetaEffect(x, b + d))
  {
    EffectAppend(x, map[], a + b + c, d);
    EffectAppend(x, map[], a + b, c);
    EffectAppend(x, map[], a, b);
    EffectAppend(x, map[], b, d);
    VersionalEffect(x, a);
    BareEffect(MetaEffect(x, a), x, b);
    var y := MetaEffect(MetaEffect(x, a), b);
    VersionalEffect(y, c);
    BareEffect(MetaEffect(y, c), MetaEffect(x, b), d);
  }

  lemma ActivateBare(c: Bit, x: Metadata, mount: Metadata, pi: Bit, cells: Cells, e: Pos, n: Pos)
    ensures Bare(MetaEffect(x, ActivateInner(c, x, mount, pi, cells, e, n)))
            == Bare(MetaEffect(x, MoveSlots(c, x, pi, n, 1 - pi, 0, n) + ActivateCommit(c, pi, n)))
  {
    var a := ActivateBump(c, x, pi, e, n) + ActivateCopies(c, x, mount, pi, cells, e, n);
    var blank := ActivateBlank(c, x, pi, e, n);
    StartVersional(c, x, mount, pi, cells, e, n);
    CellsVersional(c, MovedIds(x, pi, n, 1 - pi, 0, n), e, 0, Cap(n, e), cells, 1, 1);
    OnlyMiddle(x, a, MoveSlots(c, x, pi, n, 1 - pi, 0, n), blank, ActivateCommit(c, pi, n));
  }

  lemma DeactivateBare(c: Bit, x: Metadata, mount: Metadata, pi: Bit, cells: Cells, e: Pos, n: nat)
    ensures Bare(MetaEffect(x, DeactivateInner(c, x, mount, pi, cells, e, n)))
            == Bare(MetaEffect(x, DeactivateMoves(c, x, pi, n) + DeactivateCommit(c, pi, n)))
  {
    var moves, data := DeactivateMoves(c, x, pi, n), DeactivateData(c, x, mount, pi, cells, e, n);
    DataVersional(c, x, mount, pi, cells, e, n);
    OnlyMiddle(x, [], moves, data, DeactivateCommit(c, pi, n));
    assert [] + moves == moves;
  }

  lemma ActivateAlike(c: Bit, x: Metadata, y: Metadata, mx: Metadata, my: Metadata, pi: Bit, cx: Cells, cy: Cells,
                      e: Pos, n: Pos)
    requires Bare(x) == Bare(y)
    ensures Bare(MetaEffect(x, ActivateInner(c, x, mx, pi, cx, e, n)))
            == Bare(MetaEffect(y, ActivateInner(c, y, my, pi, cy, e, n)))
  {
    ActivateBare(c, x, mx, pi, cx, e, n);
    ActivateBare(c, y, my, pi, cy, e, n);
    BareMoves(c, x, y, pi, n, 1 - pi, 0, n);
    BareEffect(x, y, MoveSlots(c, x, pi, n, 1 - pi, 0, n) + ActivateCommit(c, pi, n));
  }

  lemma DeactivateAlike(c: Bit, x: Metadata, y: Metadata, mx: Metadata, my: Metadata, pi: Bit, cx: Cells, cy: Cells,
                        e: Pos, n: nat)
    requires Bare(x) == Bare(y)
    ensures Bare(MetaEffect(x, DeactivateInner(c, x, mx, pi, cx, e, n)))
            == Bare(MetaEffect(y, DeactivateInner(c, y, my, pi, cy, e, n)))
  {
    DeactivateBare(c, x, mx, pi, cx, e, n);
    DeactivateBare(c, y, my, pi, cy, e, n);
    BareRings(x, y);
    BareMoves(c, x, y, 1 - pi, 0, pi, x.ring(pi).len, Window(x.ring(pi).len, n));
    BareEffect(x, y, DeactivateMoves(c, x, pi, n) + DeactivateCommit(c, pi, n));
  }

  /** What a body does to a bare header depends on the bare header only. */
  lemma InnerBare(op: OpKind, c: Bit, x: Metadata, y: Metadata, mx: Metadata, my: Metadata, pi: Bit, cx: Cells,
                  cy: Cells, e: Pos, n: nat)
    requires Bare(x) == Bare(y)
    ensures Bare(MetaEffect(x, Inner(op, c, x, mx, pi, cx, e, n)))
            == Bare(MetaEffect(y, Inner(op, c, y, my, pi, cy, e, n)))
  {
    match op
    case NoOp =>
    case Promote => BareEffect(x, y, [Store(c, PrimaryIdx(ToBit(n)))]);
    case Activate => if n > 0 { ActivateAlike(c, x, y, mx, my, pi, cx, cy, e, n); }
    case Deactivate => DeactivateAlike(c, x, y, mx, my, pi, cx, cy, e, n);
  }

  // ---------------------------------------------------------------- runs of bare disks

  /** The same flags, never both up, and the same bare header in every clean copy. */
  predicate Matches(d: Disk, e: Disk) {
    && d.entries == e.entries && d.dirty0 == e.dirty0 && d.dirty1 == e.dirty1 && !(d.dirty0 && d.dirty1)
    && (!d.dirty0 ==> Bare(d.m0) == Bare(e.m0)) && (!d.dirty1 ==> Bare(d.m1) == Bare(e.m1))
  }

  /** The program can die to match the disk. */
  ghost predicate CanMatch(x: Disk, e: Disk, vs: seq<Write>) {
    exists j: nat :: Matches(x, Crash(e, vs, j))
  }

  /** Wherever the first program dies, the second can die to match it; and they match when complete. */
  ghost predicate Follows(d: Disk, e: Disk, ws: seq<Write>, vs: seq<Write>) {
    (forall k: nat :: CanMatch(Crash(d, ws, k), e, vs)) && Matches(Run(d, ws), Run(e, vs))
  }

  lemma FollowsNothing(d: Disk, e: Disk)
    requires Matches(d, e)
    ensures Follows(d, e, [], [])
  {
    assert Run(d, []) == d && Run(e, []) == e;
    forall k: nat ensures CanMatch(Crash(d, [], k), e, []) {
      assert Crash(d, [], k) == d && Crash(e, [], 0) == e;
    }
  }

  lemma FollowsAppend(d: Disk, e: Disk, ws: seq<Write>, vs: seq<Write>, ws2: seq<Write>, vs2: seq<Write>)
    requires Follows(d, e, ws, vs) && Follows(Run(d, ws), Run(e, vs), ws2, vs2)
    ensures Follows(d, e, ws + ws2, vs + vs2)
  {
    forall k: nat ensures CanMatch(Crash(d, ws + ws2, k), e, vs + vs2) {
      if k <= |ws| {
        CrashFirst(d, ws, ws2, k);
        assert CanMatch(Crash(d, ws, k), e, vs);
        MatchFirst(Crash(d, ws, k), e, vs, vs2);
      } else {
        CrashSecond(d, ws, ws2, k);
        assert CanMatch(Crash(Run(d, ws), ws2, k - |ws|), Run(e, vs), vs2);
        MatchSecond(Crash(Run(d, ws), ws2, k - |ws|), e, vs, vs2);
      }
    }
    RunAppend(d, ws, ws2);
    RunAppend(e, vs, vs2);
  }

  lemma MatchFirst(x: Disk, e: Disk, vs: seq<Write>, vs2: seq<Write>)
    requires CanMatch(x, e, vs)
    ensures CanMatch(x, e, vs + vs2)
  {
    var j: nat :| Matches(x, Crash(e, vs, j));
    var i := if j <= |vs| then j else |vs|;
    CrashFirst(e, vs, vs2, i);
    assert Crash(e, vs + vs2, i) == Crash(e, vs, j);
  }

  lemma MatchSecond(x: Disk, e: Disk, vs: seq<Write>, vs2: seq<Write>)
    requires CanMatch(x, Run(e, vs), vs2)
    ensures CanMatch(x, e, vs + vs2)
  {
    var j: nat :| Matches(x, Crash(Run(e, vs), vs2, j));
    CrashSecond(e, vs, vs2, |vs| + j);
    assert Crash(e, vs + vs2, |vs| + j) == Crash(Run(e, vs), vs2, j);
  }

  lemma FollowsScope(d: Disk, e: Disk, c: Bit, ws: seq<Write>, vs: seq<Write>)
    requires Matches(d, e) && !d.dirty(1 - c) && Inside(c, ws) && Inside(c, vs)
    requires Bare(MetaEffect(d.meta(c), ws)) == Bare(MetaEffect(e.meta(c), vs))
    ensures Follows(d, e, Scope(c, ws), Scope(c, vs))
  {
    ScopeClosed(d, c, ws);
    ScopeClosed(e, c, vs);
    forall k: nat ensures CanMatch(Crash(d, Scope(c, ws), k), e, Scope(c, vs)) {
      if k == 0 {
        assert Matches(Crash(d, Scope(c, ws), k), Crash(e, Scope(c, vs), 0));
      } else if k < |Scope(c, ws)| {
        ScopeOpen(d, c, ws, k);
        ScopeOpen(e, c, vs, 1);
        assert Matches(Crash(d, Scope(c, ws), k), Crash(e, Scope(c, vs), 1));
      } else {
        CrashWhole(d, Scope(c, ws), k);
        CrashWhole(e, Scope(c, vs), |Scope(c, vs)|);
        assert Matches(Crash(d, Scope(c, ws), k), Crash(e, Scope(c, vs), |Scope(c, vs)|));
      }
    }
  }

  /** Two scopes, one per copy, on clean disks. */
  lemma FollowsScopes(d: Disk, e: Disk, i0: seq<Write>, i1: seq<Write>, j0: seq<Write>, j1: seq<Write>)
    requires Matches(d, e) && Clean(d) && Inside(0, i0) && Inside(1, i1) && Inside(0, j0) && Inside(1, j1)
    requires Bare(MetaEffect(d.m0, i0)) == Bare(MetaEffect(e.m0, j0))
    requires Bare(MetaEffect(d.m1, i1)) == Bare(MetaEffect(e.m1, j1))
    ensures Follows(d, e, Scope(0, i0) + Scope(1, i1), Scope(0, j0) + Scope(1, j1))
    ensures Clean(Run(d, Scope(0, i0) + Scope(1, i1)))
  {
    FollowsScope(d, e, 0, i0, j0);
    ScopeClosed(d, 0, i0);
    ScopeClosed(e, 0, j0);
    var d1, e1 := Run(d, Scope(0, i0)), Run(e, Scope(0, j0));
    FollowsScope(d1, e1, 1, i1, j1);
    FollowsAppend(d, e, Scope(0, i0), Scope(0, j0), Scope(1, i1), Scope(1, j1));
    RunAppend(d, Scope(0, i0), Scope(1, i1));
    ScopeClosed(d1, 1, i1);
  }

  lemma FollowsPending(d: Disk, e: Disk, op: OpKind, n: nat)
    requires Matches(d, e) && Clean(d)
    ensures Follows(d, e, Stamp(op, n), Stamp(op, n)) && Clean(Run(d, Stamp(op, n)))
  {
    var i0 := [Store(0, PendingKind(op)), Store(0, PendingParam(n))];
    var i1 := [Store(1, PendingKind(op)), Store(1, PendingParam(n))];
    BareEffect(d.m0, e.m0, i0);
    BareEffect(d.m1, e.m1, i1);
    FollowsScopes(d, e, i0, i1, i0, i1);
  }

  lemma FollowsHistory(op: OpKind, d: Disk, e: Disk, x: Disk, y: Disk, n: nat)
    requires Matches(d, e) && Clean(d) && Matches(x, y) && Clean(x)
    ensures Follows(x, y, HistoryWrites(op, d, n), HistoryWrites(op, e, n)) && Clean(Run(x, HistoryWrites(op, d, n)))
  {
    BareRings(d.m0, e.m0);
    if HistoryWrites(op, d, n) == [] {
      FollowsNothing(x, y);
    } else {
      var h := Max(Cap(n, d.entries), MIN_HISTORY_LENGTH);
      var i0, i1 := [Store(0, HistoryLength(h))], [Store(1, HistoryLength(h))];
      BareEffect(x.m0, y.m0, i0);
      BareEffect(x.m1, y.m1, i1);
      FollowsScopes(x, y, i0, i1, i0, i1);
    }
  }

  lemma FollowsBody(op: OpKind, d: Disk, e: Disk, n: nat)
    requires Matches(d, e) && Clean(d)
    ensures Follows(d, e, Body(op, d, n), Body(op, e, n)) && Clean(Run(d, Body(op, d, n)))
  {
    BareRings(d.m0, e.m0);
    var pi := d.m0.primary;
    var i0 := Inner(op, 0, d.m0, d.m0, pi, d.cells0, d.entries, n);
    var i1 := Inner(op, 1, d.m1, d.m0, pi, d.cells1, d.entries, n);
    var j0 := Inner(op, 0, e.m0, e.m0, pi, e.cells0, d.entries, n);
    var j1 := Inner(op, 1, e.m1, e.m0, pi, e.cells1, d.entries, n);
    BodyMatches(op, d, e, pi, n);
    FollowsScopes(d, e, i0, i1, j0, j1);
    var ws, vs := Scope(0, i0) + Scope(1, i1), Scope(0, j0) + Scope(1, j1);
    FollowsHistory(op, d, e, Run(d, ws), Run(e, vs), n);
    FollowsAppend(d, e, ws, vs, HistoryWrites(op, d, n), HistoryWrites(op, e, n));
    RunAppend(d, ws, HistoryWrites(op, d, n));
  }

  lemma BodyMatches(op: OpKind, d: Disk, e: Disk, pi: Bit, n: nat)
    requires Matches(d, e) && Clean(d)
    ensures Inside(0, Inner(op, 0, d.m0, d.m0, pi, d.cells0, d.entries, n))
    ensures Inside(1, Inner(op, 1, d.m1, d.m0, pi, d.cells1, d.entries, n))
    ensures Inside(0, Inner(op, 0, e.m0, e.m0, pi, e.cells0, d.entries, n))
    ensures Inside(1, Inner(op, 1, e.m1, e.m0, pi, e.cells1, d.entries, n))
    ensures Bare(MetaEffect(d.m0, Inner(op, 0, d.m0, d.m0, pi, d.cells0, d.entries, n)))
            == Bare(MetaEffect(e.m0, Inner(op, 0, e.m0, e.m0, pi, e.cells0, d.entries, n)))
    ensures Bare(MetaEffect(d.m1, Inner(op, 1, d.m1, d.m0, pi, d.cells1, d.entries, n)))
            == Bare(MetaEffect(e.m1, Inner(op, 1, e.m1, e.m0, pi, e.cells1, d.entries, n)))
  {
    InnerInside(op, 0, d.m0, d.m0, pi, d.cells0, d.entries, n);
    InnerInside(op, 1, d.m1, d.m0, pi, d.cells1, d.entries, n);
    InnerInside(op, 0, e.m0, e.m0, pi, e.cells0, d.entries, n);
    InnerInside(op, 1, e.m1, e.m0, pi, e.cells1, d.entries, n);
    InnerBare(op, 0, d.m0, e.m0, d.m0, e.m0, pi, d.cells0, e.cells0, d.entries, n);
    InnerBare(op, 1, d.m1, e.m1, d.m0, e.m0, pi, d.cells1, e.cells1, d.entries, n);
  }

  lemma FollowsFinish(op: OpKind, d: Disk, e: Disk, n: nat)
    requires Matches(d, e) && Clean(d)
    ensures Follows(d, e, Body(op, d, n) + Clear(), Body(op, e, n) + Clear())
  {
    FollowsBody(op, d, e, n);
    FollowsPending(Run(d, Body(op, d, n)), Run(e, Body(op, e, n)), NoOp, 0);
    FollowsAppend(d, e, Body(op, d, n), Body(op, e, n), Clear(), Clear());
  }

  lemma FollowsOperation(op: OpKind, d: Disk, e: Disk)
    requires Matches(d, e) && Clean(d)
    ensures Follows(d, e, Operation(op, d), Operation(op, e))
  {
    var n := Target(op, d.m0);
    var st := Stamp(op, n);
    BareTarget(op, d.m0, e.m0);
    FollowsPending(d, e, op, n);
    var d1, e1 := Run(d, st), Run(e, st);
    FollowsFinish(op, d1, e1, n);
    FollowsAppend(d, e, st, st, Body(op, d1, n) + Clear(), Body(op, e1, n) + Clear());
    Regroup(st, Body(op, d1, n), [], Clear());
    Regroup(st, Body(op, e1, n), [], Clear());
  }

  lemma BareTarget(op: OpKind, x: Metadata, y: Metadata)
    requires Bare(x) == Bare(y)
    ensures Target(op, x) == Target(op, y)
  {
    BareRings(x, y);
  }

  lemma FollowsRestore(d: Disk, e: Disk)
    requires Matches(d, e)
    ensures Follows(d, e, Restore(d), Restore(e)) && Clean(Run(d, Restore(d)))
  {
    RestoreDone(d);
    if Clean(d) {
      FollowsNothing(d, e);
    } else {
      var c: Bit := if d.dirty0 then 0 else 1;
      CopyInnerEffect(c, d.meta(1 - c), d.meta(c));
      CopyInnerEffect(c, e.meta(1 - c), e.meta(c));
      FollowsScope(d, e, c, CopyInner(c, d.meta(1 - c)), CopyInner(c, e.meta(1 - c)));
    }
  }

  lemma FollowsReplay(d: Disk, e: Disk)
    requires Matches(d, e) && Clean(d)
    ensures Follows(d, e, Replay(d), Replay(e))
  {
    BareRings(d.m0, e.m0);
    BareRings(d.m1, e.m1);
    if Intent(d) {
      var (op, n) := if d.m0.kind != NoOp then (d.m0.kind, d.m0.param) else (d.m1.kind, d.m1.param);
      FollowsFinish(op, d, e, n);
    } else {
      FollowsNothing(d, e);
    }
  }

  lemma FollowsRecovery(d: Disk, e: Disk)
    requires Matches(d, e)
    ensures Follows(d, e, Recovery(d), Recovery(e))
  {
    FollowsRestore(d, e);
    FollowsReplay(Run(d, Restore(d)), Run(e, Restore(e)));
    FollowsAppend(d, e, Restore(d), Restore(e), Replay(Run(d, Restore(d))), Replay(Run(e, Restore(e))));
  }

  lemma OperationFollows(op: OpKind, d: Disk, e: Disk, k: nat) returns (j: nat)
    requires Matches(d, e) && Clean(d)
    ensures Matches(Crash(d, Operation(op, d), k), Crash(e, Operation(op, e), j))
  {
    FollowsOperation(op, d, e);
    assert CanMatch(Crash(d, Operation(op, d), k), e, Operation(op, e));
    j :| Matches(Crash(d, Operation(op, d), k), Crash(e, Operation(op, e), j));
  }

  lemma OpenFollows(d: Disk, e: Disk, k: nat) returns (j: nat)
    requires Matches(d, e)
    ensures Matches(Crash(d, Recovery(d), k), Crash(e, Recovery(e), j))
  {
    FollowsRecovery(d, e);
    assert CanMatch(Crash(d, Recovery(d), k), e, Recovery(e));
    j :| Matches(Crash(d, Recovery(d), k), Crash(e, Recovery(e), j));
  }

  /** Every run of an operation and opens has one on the bare disk that ends in a matching state. */
  lemma {:induction false} RunFollows(op: OpKind, d: Disk, e: Disk, k: nat, ks: seq<nat>) returns (j: nat, js: seq<nat>)
    requires Matches(d, e) && Clean(d)
    ensures Matches(RunTo(op, d, k, ks), RunTo(op, e, j, js))
  {
    if ks == [] {
      j := OperationFollows(op, d, e, k);
      js := [];
    } else {
      var n := |ks| - 1;
      var rest;
      j, rest := RunFollows(op, d, e, k, ks[..n]);
      var i := OpenFollows(RunTo(op, d, k, ks[..n]), RunTo(op, e, j, rest), ks[n]);
      js := rest + [i];
      assert js[..|js| - 1] == rest;
    }
  }

  // ---------------------------------------------------------------- what every event keeps

  /** At rest, the copies with the same chunk lists and roles, the chunks partitioned. */
  ghost predicate ListsSound(d: Disk, total: nat) {
    AtRest(d) && ListsAgree(d.m0, d.m1) && WellFormed(Bare(d.m0), total, d.entries)
  }

  function Bared(d: Disk): Disk {
    d.(m0 := Bare(d.m0), m1 := Bare(d.m1))
  }

  lemma BareTwice(m: Metadata)
    ensures Bare(Bare(m)) == Bare(m)
  {
  }

  lemma BaredSound(d: Disk, total: nat)
    requires ListsSound(d, total)
    ensures Sound(Bared(d), total) && Matches(d, Bared(d)) && Clean(d)
  {
    BareTwice(d.m0);
    BareTwice(d.m1);
  }

  /** A match of a sound disk is one whose lists are sound. */
  lemma MatchSound(d: Disk, e: Disk, total: nat)
    requires Sound(e, total) && Matches(d, e)
    ensures ListsSound(d, total) && d.entries == e.entries
  {
    BareRings(d.m0, e.m0);
    BareRings(d.m1, e.m1);
    assert Norm(e.m0).a == Norm(e.m1).a && Norm(e.m0).b == Norm(e.m1).b && Norm(e.m0).primary == Norm(e.m1).primary
        && Norm(e.m0).active == Norm(e.m1).active;
    BareWellFormed(e.m0, total, e.entries);
  }

  lemma BareWellFormed(m: Metadata, total: nat, e: Pos)
    requires WellFormed(m, total, e)
    ensures WellFormed(Bare(m), total, e)
  {
  }

  lemma OperationSound(op: OpKind, d: Disk, total: nat, k: nat, ks: seq<nat>)
    requires ListsSound(d, total) && Ready(op, Bare(d.m0), total, d.entries)
    ensures ListsSound(Recovered(RunTo(op, d, k, ks)), total) && Recovered(RunTo(op, d, k, ks)).entries == d.entries
  {
    var e := Bared(d);
    BaredSound(d, total);
    var j, js := RunFollows(op, d, e, k, ks);
    var x, y := RunTo(op, d, k, ks), RunTo(op, e, j, js);
    FollowsRecovery(x, y);
    NextSound(e, Lifecycle.Event(op, j, js), total);
    MatchSound(Recovered(x), Recovered(y), total);
  }

  // ---------------------------------------------------------------- calls and setters

  /** Stores that touch no chunk list, no role and no intent. */
  predicate Listless(ws: seq<Write>) {
    forall i :: 0 <= i < |ws| && ws[i].Store? ==> Versional(ws[i].f) || ws[i].f.HistoryLength?
  }

  predicate KeptLists(m: Metadata, x: Metadata) {
    x.kind == NoOp && ListsAgree(m, x)
  }

  /** At most one copy is dirty, and a clean one has the lists of `m` and no intent. */
  predicate Halfway(m: Metadata, e: Pos, x: Disk) {
    && x.entries == e && !(x.dirty0 && x.dirty1)
    && (!x.dirty0 ==> KeptLists(m, x.m0)) && (!x.dirty1 ==> KeptLists(m, x.m1))
  }

  lemma {:induction false} ListlessEffect(m: Metadata, x: Metadata, ws: seq<Write>)
    requires KeptLists(m, x) && Listless(ws)
    ensures KeptLists(m, MetaEffect(x, ws))
  {
    if ws != [] {
      ListlessEffect(m, x, ws[..|ws| - 1]);
    }
  }

  lemma HalfwayScope(m: Metadata, d: Disk, c: Bit, ws: seq<Write>, k: nat)
    requires Halfway(m, d.entries, d) && Clean(d) && Inside(c, ws) && Listless(ws)
    ensures Halfway(m, d.entries, Crash(d, Scope(c, ws), k))
    ensures Halfway(m, d.entries, Run(d, Scope(c, ws))) && Clean(Run(d, Scope(c, ws)))
    ensures Run(d, Scope(c, ws)).entries == d.entries
  {
    ScopeClosed(d, c, ws);
    ListlessEffect(m, d.meta(c), ws);
    if 0 < k < |Scope(c, ws)| {
      ScopeOpen(d, c, ws, k);
    } else if k > 0 {
      CrashWhole(d, Scope(c, ws), k);
    }
  }

  lemma HalfwayScopes(m: Metadata, d: Disk, i0: seq<Write>, i1: seq<Write>, k: nat)
    requires Halfway(m, d.entries, d) && Clean(d) && Inside(0, i0) && Listless(i0) && Inside(1, i1) && Listless(i1)
    ensures Halfway(m, d.entries, Crash(d, Scope(0, i0) + Scope(1, i1), k))
  {
    var s0, s1 := Scope(0, i0), Scope(1, i1);
    HalfwayScope(m, d, 0, i0, k);
    if k <= |s0| {
      CrashFirst(d, s0, s1, k);
    } else {
      CrashSecond(d, s0, s1, k);
      HalfwayScope(m, Run(d, s0), 1, i1, k - |s0|);
    }
  }

  lemma HalfwayOpen(m: Metadata, d: Disk, k: nat)
    requires Halfway(m, d.entries, d)
    ensures Halfway(m, d.entries, Crash(d, Recovery(d), k))
    ensures var r := Recovered(d); AtRest(r) && KeptLists(m, r.m0) && KeptLists(m, r.m1) && r.entries == d.entries
  {
    RestoreDone(d);
    var d1 := Run(d, Restore(d));
    assert Replay(d1) == [];
    assert Recovery(d) == Restore(d);
    if !Clean(d) {
      var c: Bit := if d.dirty0 then 0 else 1;
      if 0 < k < |Restore(d)| {
        RestoreInside(d, c, k);
      } else if k > 0 {
        CrashWhole(d, Restore(d), k);
      }
    }
  }

  lemma {:induction false} HalfwayOpens(m: Metadata, d: Disk, ks: seq<nat>)
    requires Halfway(m, d.entries, d)
    ensures Halfway(m, d.entries, AfterCrashes(d, ks))
  {
    if ks != [] {
      HalfwayOpens(m, d, ks[..|ks| - 1]);
      HalfwayOpen(m, AfterCrashes(d, ks[..|ks| - 1]), ks[|ks| - 1]);
    }
  }

  /** A program of two listless scopes, killed anywhere, and opens killed anywhere. */
  lemma ListlessSound(d: Disk, total: nat, i0: seq<Write>, i1: seq<Write>, k: nat, ks: seq<nat>)
    requires ListsSound(d, total) && Inside(0, i0) && Listless(i0) && Inside(1, i1) && Listless(i1)
    ensures var r := Recovered(AfterCrashes(Crash(d, Scope(0, i0) + Scope(1, i1), k), ks));
            ListsSound(r, total) && r.entries == d.entries
  {
    var x := Crash(d, Scope(0, i0) + Scope(1, i1), k);
    HalfwayScopes(d.m0, d, i0, i1, k);
    HalfwayOpens(d.m0, x, ks);
    HalfwayOpen(d.m0, AfterCrashes(x, ks), 0);
    ListsWellFormed(d.m0, Recovered(AfterCrashes(x, ks)).m0, total, d.entries);
  }

  lemma ListsWellFormed(m: Metadata, x: Metadata, total: nat, e: Pos)
    requires WellFormed(Bare(m), total, e) && ListsAgree(m, x)
    ensures WellFormed(Bare(x), total, e)
  {
  }

  lemma {:induction false} ToWritesListless(c: Bit, i: Bit, slots: seq<nat>, e: Pos, ss: seq<RC.RingStore>)
    ensures Listless(ToWrites(c, i, slots, e, ss))
  {
    if ss != [] {
      ToWritesListless(c, i, slots, e, ss[..|ss| - 1]);
    }
  }

  datatype Setter =
    | SetFinalized(v: nat)
    | SetVerified(v: nat)
    | SetVoted(v: nat, id: nat)
    | SetProposed(v: nat, id: nat)
    | SetAutoExpire(t: Bit, x: int)
    | SetHistoryLength(h: nat)

  /** The stores of a setter into one copy; the role of a timeline is read from copy 0. */
  function SetterInner(c: Bit, m0: Metadata, s: Setter): seq<Write> {
    match s
    case SetFinalized(v) => [Store(c, FinalizedVersion(v))]
    case SetVerified(v) => [Store(c, VerifiedVersion(v))]
    case SetVoted(v, id) => Setters.SetInner(c, Setters.Voted, (v, id))
    case SetProposed(v, id) => Setters.SetInner(c, Setters.Proposed, (v, id))
    case SetAutoExpire(t, x) => [Store(c, AutoExpire(RingOf(m0, t), x))]
    case SetHistoryLength(h) => [Store(c, HistoryLength(h))]
  }

  function SetterWrites(m0: Metadata, s: Setter): seq<Write> {
    Scope(0, SetterInner(0, m0, s)) + Scope(1, SetterInner(1, m0, s))
  }

  /** What the setter makes of a header, whose roles are those of `m0`. */
  predicate Shows(m0: Metadata, s: Setter, m: Metadata, m': Metadata) {
    match s
    case SetFinalized(v) => m' == m.(consensus := m.consensus.(finalizedVersion := v))
    case SetVerified(v) => m' == m.(consensus := m.consensus.(verifiedVersion := v))
    case SetVoted(v, id) => m' == m.(consensus := m.consensus.(votedVersion := v, votedBlock := id))
    case SetProposed(v, id) => m' == m.(consensus := m.consensus.(proposedVersion := v, proposedBlock := id))
    case SetAutoExpire(t, x) =>
      var i: Bit := if t == 0 then m0.primary else 1 - m0.primary;
      m' == m.withRing(i, m.ring(i).(autoExpire := x))
    case SetHistoryLength(h) => m' == m.(historyLength := h)
  }

  lemma SetterShows(c: Bit, m0: Metadata, s: Setter, m: Metadata, cells: Cells)
    ensures Inside(c, SetterInner(c, m0, s)) && Listless(SetterInner(c, m0, s))
    ensures Shows(m0, s, m, MetaEffect(m, SetterInner(c, m0, s)))
    ensures CellsEffect(cells, SetterInner(c, m0, s)) == cells
  {
    var ws := SetterInner(c, m0, s);
    NoCells(cells, ws);
    if |ws| == 2 {
      Steps2(m, ws);
    } else {
      assert ws[..0] == [];
    }
  }

  /** On every clean disk a setter that is not interrupted sets its field on both copies and changes nothing else; the
      expiry it sets is the one of its timeline. */
  lemma SetterSets(d: Disk, s: Setter)
    requires Clean(d)
    ensures var r := Run(d, SetterWrites(d.m0, s));
            && Clean(r) && Shows(d.m0, s, d.m0, r.m0) && Shows(d.m0, s, d.m1, r.m1)
            && r.cells0 == d.cells0 && r.cells1 == d.cells1 && r.entries == d.entries
            && (s.SetAutoExpire? ==>
                  AutoExpireOf(r.m0, s.t) == s.x && AutoExpireOf(r.m0, 1 - s.t) == AutoExpireOf(d.m0, 1 - s.t))
  {
    var i0, i1 := SetterInner(0, d.m0, s), SetterInner(1, d.m0, s);
    SetterShows(0, d.m0, s, d.m0, d.cells0);
    SetterShows(1, d.m0, s, d.m1, d.cells1);
    ScopeClosed(d, 0, i0);
    ScopeClosed(Run(d, Scope(0, i0)), 1, i1);
    RunAppend(d, Scope(0, i0), Scope(1, i1));
  }

  /** The disk an open finds after a setter died with `k` stores, of which the first `n0` go to copy 0. */
  predicate Killed(d: Disk, s: Setter, k: nat, n0: nat, r: Disk) {
    && AtRest(r) && r.cells0 == d.cells0
    && (if k == 0 then r.m0 == d.m0 else if k < n0 then r.m0 == d.m1 else Shows(d.m0, s, d.m0, r.m0))
  }

  /** Killed anywhere: the next open reports the new value if the stores to copy 0 were complete, otherwise the header
      of copy 1, or that of copy 0 if nothing was stored. */
  lemma SetterKilled(d: Disk, s: Setter, k: nat)
    requires AtRest(d)
    ensures Killed(d, s, k, |SetterInner(0, d.m0, s)| + 2, Recovered(Crash(d, SetterWrites(d.m0, s), k)))
  {
    var i0, i1 := SetterInner(0, d.m0, s), SetterInner(1, d.m0, s);
    SetterQuiet(0, d.m0, s, d.m0);
    SetterQuiet(1, d.m0, s, d.m1);
    SetterShows(0, d.m0, s, d.m0, d.cells0);
    ScopesShow(d, s, i0, i1, k);
  }

  lemma ScopesShow(d: Disk, s: Setter, i0: seq<Write>, i1: seq<Write>, k: nat)
    requires AtRest(d) && Inside(0, i0) && Inside(1, i1) && forall i :: 0 <= i < |i0| ==> i0[i].Store?
    requires MetaEffect(d.m0, i0).kind == NoOp && MetaEffect(d.m1, i1).kind == NoOp
    requires Shows(d.m0, s, d.m0, MetaEffect(d.m0, i0))
    ensures Killed(d, s, k, |i0| + 2, Recovered(Crash(d, Scope(0, i0) + Scope(1, i1), k)))
  {
    ScopesKilled(d, i0, i1, k);
  }

  lemma SetterQuiet(c: Bit, m0: Metadata, s: Setter, m: Metadata)
    ensures var ws := SetterInner(c, m0, s);
            Inside(c, ws) && (forall i :: 0 <= i < |ws| ==> ws[i].Store?) && MetaEffect(m, ws).kind == m.kind
  {
    SetterShows(c, m0, s, m, map[]);
  }

  /** Two scopes of header stores that leave the intent alone. */
  lemma ScopesKilled(d: Disk, i0: seq<Write>, i1: seq<Write>, k: nat)
    requires AtRest(d) && Inside(0, i0) && Inside(1, i1) && forall i :: 0 <= i < |i0| ==> i0[i].Store?
    requires MetaEffect(d.m0, i0).kind == NoOp && MetaEffect(d.m1, i1).kind == NoOp
    ensures var r, n0 := Recovered(Crash(d, Scope(0, i0) + Scope(1, i1), k)), |i0| + 2;
            && AtRest(r) && r.cells0 == d.cells0
            && r.m0 == if k == 0 then d.m0 else if k < n0 then d.m1 else MetaEffect(d.m0, i0)
  {
    if k < |i0| + 2 {
      EarlyCrash(d, i0, i1, k);
      NoCells(d.cells0, if k == 0 then [] else i0[..k - 1]);
    } else {
      LateCrash(d, i0, i1, k);
      NoCells(d.cells0, i0);
    }
  }

  // ---------------------------------------------------------------- every run

  /** Operations, calls and setters. */
  datatype Deed = Operate(op: OpKind) | Use(call: RO.Call) | Set(s: Setter)

  /** A deed killed after `k` stores and opens killed after `ks` stores each, before one open completes. */
  datatype Event = Event(deed: Deed, k: nat, ks: seq<nat>)

  /** What the public operations assert before they stamp their intent. */
  predicate Asserts(op: OpKind, m: Metadata) {
    match op
    case NoOp => false
    case Activate => !m.active && 2 <= m.primaryRing().len && PowerOfTwo(m.primaryRing().len)
    case Deactivate => m.active && 0 < m.primaryRing().len && 0 < m.secondaryRing().len
                       && PowerOfTwo(m.primaryRing().len + m.secondaryRing().len)
    case Promote => m.active
  }

  /** The stores of a deed; one whose assertions fail stops before it stores anything. */
  function DeedWrites(d: Disk, deed: Deed): seq<Write> {
    match deed
    case Operate(op) => if Asserts(op, d.m0) then Operation(op, d) else []
    case Use(call) => if Ringed(d) && RC.Accepts(CopiesAt(d), call) then CallWrites(d, call) else []
    case Set(s) => SetterWrites(d.m0, s)
  }

  function Next(d: Disk, ev: Event): Disk {
    Recovered(AfterCrashes(Crash(d, DeedWrites(d, ev.deed), ev.k), ev.ks))
  }

  function History(d: Disk, evs: seq<Event>): Disk {
    if evs == [] then d else Next(History(d, evs[..|evs| - 1]), evs[|evs| - 1])
  }

  lemma AssertsReady(op: OpKind, d: Disk, total: nat)
    requires ListsSound(d, total) && Asserts(op, d.m0)
    ensures Ready(op, Bare(d.m0), total, d.entries)
  {
  }

  lemma {:induction false} RestStays(d: Disk, ks: seq<nat>)
    requires AtRest(d)
    ensures AfterCrashes(d, ks) == d && Recovered(d) == d
  {
    RestOpens(d);
    assert Restore(d) == [] && Run(d, []) == d && Replay(d) == [];
    assert Recovery(d) == [];
    if ks != [] {
      RestStays(d, ks[..|ks| - 1]);
      assert Crash(d, [], ks[|ks| - 1]) == d;
    }
  }

  /** Every event keeps the chunk lists sound. */
  lemma NextKeeps(d: Disk, ev: Event, total: nat)
    requires ListsSound(d, total)
    ensures ListsSound(Next(d, ev), total) && Next(d, ev).entries == d.entries
  {
    if DeedWrites(d, ev.deed) == [] {
      assert Crash(d, [], ev.k) == d;
      RestStays(d, ev.ks);
    } else {
      match ev.deed
      case Operate(op) =>
        AssertsReady(op, d, total);
        OperationSound(op, d, total, ev.k, ev.ks);
      case Use(call) => CallSound(d, total, call, ev.k, ev.ks);
      case Set(s) =>
        SetterShows(0, d.m0, s, d.m0, d.cells0);
        SetterShows(1, d.m0, s, d.m1, d.cells1);
        ListlessSound(d, total, SetterInner(0, d.m0, s), SetterInner(1, d.m0, s), ev.k, ev.ks);
    }
  }

  lemma CallSound(d: Disk, total: nat, call: RO.Call, k: nat, ks: seq<nat>)
    requires ListsSound(d, total) && Ringed(d) && RC.Accepts(CopiesAt(d), call)
    ensures var r := Recovered(AfterCrashes(Crash(d, CallWrites(d, call), k), ks));
            ListsSound(r, total) && r.entries == d.entries
  {
    var i, c := d.m0.primary, CopiesAt(d);
    ToWritesListless(0, i, d.m0.ring(i).slots, d.entries, RC.Stores0(c, call));
    ToWritesListless(1, i, d.m1.ring(i).slots, d.entries, RC.Stores1(c, call));
    ListlessSound(d, total, CallInner(d, 0, call), CallInner(d, 1, call), k, ks);
  }

  /** In every run from a fresh pool, of operations, calls and setters, each killed anywhere and followed by any number
      of opens killed anywhere: nothing is dirty or pending after the open that completes, both copies have the same
      chunk lists and roles, the chunks are partitioned between the rings, unused slots are null, and the capacity of
      each ring is zero or a power of two. */
  lemma {:induction false} EveryReachable(total: nat, e: Pos, evs: seq<Event>)
    requires PowerOfTwo(total) && total <= SLOTS && PowerOfTwo(e)
    ensures var d := History(FreshPool(total, e), evs);
            var p, s := d.m0.primaryRing(), d.m0.secondaryRing();
            && ListsSound(d, total) && d.entries == e
            && (if d.m0.active then p.len == s.len && p.len + s.len == total else p.len == total && s.len == 0)
            && Permutation(p.slots[..p.len] + s.slots[..s.len], total)
            && NullFrom(p.slots, p.len) && NullFrom(s.slots, s.len)
            && PowerOfTwo(Cap(p.len, e)) && (s.len == 0 || PowerOfTwo(Cap(s.len, e)))
  {
    if evs == [] {
      FreshSound(total, e);
      BareWellFormed(FreshPool(total, e).m0, total, e);
    } else {
      EveryReachable(total, e, evs[..|evs| - 1]);
      NextKeeps(History(FreshPool(total, e), evs[..|evs| - 1]), evs[|evs| - 1], total);
    }
    SoundCapacities(History(FreshPool(total, e), evs), total, e);
  }

  lemma SoundCapacities(d: Disk, total: nat, e: Pos)
    requires ListsSound(d, total) && d.entries == e && PowerOfTwo(total) && PowerOfTwo(e)
    ensures var p, s := d.m0.primaryRing(), d.m0.secondaryRing();
            && (if d.m0.active then p.len == s.len && p.len + s.len == total else p.len == total && s.len == 0)
            && p.len <= SLOTS && s.len <= SLOTS && Permutation(p.slots[..p.len] + s.slots[..s.len], total)
            && NullFrom(p.slots, p.len) && NullFrom(s.slots, s.len)
            && PowerOfTwo(Cap(p.len, e)) && (s.len == 0 || PowerOfTwo(Cap(s.len, e)))
  {
    var p, s := d.m0.primaryRing(), d.m0.secondaryRing();
    assert Bare(d.m0).primaryRing() == BareRing(p) && Bare(d.m0).secondaryRing() == BareRing(s);
    if d.m0.active {
      assert p.len == total / 2;
      PowerOfTwoCap(total / 2, e);
    } else {
      PowerOfTwoCap(total, e);
    }
  }

  /** The bounds of the live rings are windows. */
  predicate LiveWindows(m: Metadata, e: Pos) {
    InWindow(m.primaryRing(), e) && (m.active ==> InWindow(m.secondaryRing(), e))
  }

  /** So on every reachable disk whose live bounds are windows, an operation that passes its assertions is one to which
      the exact conditions for copies that may disagree apply. */
  lemma ReachableCallable(op: OpKind, total: nat, e: Pos, evs: seq<Event>)
    requires PowerOfTwo(total) && total <= SLOTS && PowerOfTwo(e)
    ensures var d := History(FreshPool(total, e), evs);
            Asserts(op, d.m0) && LiveWindows(d.m0, e) && LiveWindows(d.m1, e) ==> Callable(op, d, total)
  {
    EveryReachable(total, e, evs);
    var d := History(FreshPool(total, e), evs);
    if Asserts(op, d.m0) && LiveWindows(d.m0, e) && LiveWindows(d.m1, e) {
      AssertsReady(op, d, total);
      BareReady(op, d.m0, d.m0, total, e);
      BareReady(op, d.m0, d.m1, total, e);
    }
  }

  lemma BareReady(op: OpKind, m: Metadata, x: Metadata, total: nat, e: Pos)
    requires Ready(op, Bare(m), total, e) && ListsAgree(m, x) && LiveWindows(x, e)
    ensures Ready(op, x, total, e)
  {
    assert Bare(m).primaryRing() == BareRing(m.primaryRing()) && Bare(m).secondaryRing() == BareRing(m.secondaryRing());
  }
}
