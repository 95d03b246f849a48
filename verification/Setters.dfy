/**
 The consensus markers.  A setter stores a version and a block id into both copies, one
 dirty scope each.  In every run of setters, operations and opens, each killed anywhere, the
 pair that queries read after recovery was written by one single call.
 */
module Setters {
  import opened Disk
  import opened Programs
  import opened CrashSafety

  type Pair = (nat, nat)

  datatype Marker = Voted | Proposed

  function PairOf(mk: Marker, m: Metadata): Pair {
    match mk
    case Voted => (m.consensus.votedVersion, m.consensus.votedBlock)
    case Proposed => (m.consensus.proposedVersion, m.consensus.proposedBlock)
  }

  function SetInner(c: Bit, mk: Marker, x: Pair): seq<Write> {
    match mk
    case Voted => [Store(c, VotedVersion(x.0)), Store(c, VotedBlock(x.1))]
    case Proposed => [Store(c, ProposedVersion(x.0)), Store(c, ProposedBlock(x.1))]
  }

  function SetMarker(mk: Marker, x: Pair): seq<Write> {
    Scope(0, SetInner(0, mk, x)) + Scope(1, SetInner(1, mk, x))
  }

  /** Setters, the three operations, or an open; each dies after at most `k` stores. */
  datatype Event =
    | Set(mk: Marker, x: Pair, k: nat)
    | Operate(op: OpKind, k: nat)
    | Open(k: nat)

  /** A new call is possible only on a disk without a dirty copy; otherwise the process has
      died and must open the disk again first. */
  function Next(d: Disk, ev: Event): Disk {
    match ev
    case Set(mk, x, k) => if Clean(d) then Crash(d, SetMarker(mk, x), k) else d
    case Operate(op, k) => if Clean(d) && op != NoOp then Crash(d, Operation(op, d), k) else d
    case Open(k) => Crash(d, Recovery(d), k)
  }

  function After(d: Disk, evs: seq<Event>): Disk {
    if evs == [] then d else Next(After(d, evs[..|evs| - 1]), evs[|evs| - 1])
  }

  /** The pairs some call in the run has passed. */
  function Passed(mk: Marker, evs: seq<Event>): set<Pair> {
    set ev | ev in evs && ev.Set? && ev.mk == mk :: ev.x
  }

  /** Never both dirty, and whichever header recovery reinstates has a pair of `s`. */
  predicate Paired(mk: Marker, d: Disk, s: set<Pair>) {
    !(d.dirty0 && d.dirty1) && PairOf(mk, View(d, 0)) in s && PairOf(mk, View(d, 1)) in s
  }

  // ---------------------------------------------------------------- scopes that respect the pair

  predicate MarkerField(f: Field) {
    f.VotedVersion? || f.VotedBlock? || f.ProposedVersion? || f.ProposedBlock?
  }

  predicate NoMarkers(ws: seq<Write>) {
    forall w :: w in ws && w.Store? ==> !MarkerField(w.f)
  }

  lemma {:induction false} NoMarkersEffect(mk: Marker, m: Metadata, ws: seq<Write>)
    requires NoMarkers(ws)
    ensures PairOf(mk, MetaEffect(m, ws)) == PairOf(mk, m)
  {
    if ws != [] {
      NoMarkersEffect(mk, m, ws[..|ws| - 1]);
      var w := ws[|ws| - 1];
      if w.Store? {
        PutKeeps(mk, MetaEffect(m, ws[..|ws| - 1]), w.f);
      }
    }
  }

  lemma PutKeeps(mk: Marker, m: Metadata, f: Field)
    requires !MarkerField(f)
    ensures PairOf(mk, Put(m, f)) == PairOf(mk, m)
  {
  }

  /** A scope whose closed result has an admissible pair keeps the invariant throughout. */
  lemma ScopeKeeps(mk: Marker, d: Disk, s: set<Pair>, c: Bit, inner: seq<Write>, k: nat)
    requires Clean(d) && Paired(mk, d, s) && Inside(c, inner) && PairOf(mk, MetaEffect(d.meta(c), inner)) in s
    ensures Paired(mk, Crash(d, Scope(c, inner), k), s)
    ensures var r := Run(d, Scope(c, inner)); Clean(r) && Paired(mk, r, s) && r.meta(1 - c) == d.meta(1 - c)
                                              && r.meta(c) == MetaEffect(d.meta(c), inner)
  {
    ScopeClosed(d, c, inner);
    if 0 < k < |Scope(c, inner)| {
      ScopeOpen(d, c, inner, k);
    } else if k != 0 {
      CrashWhole(d, Scope(c, inner), k);
    }
  }

  lemma TwoScopesKeep(mk: Marker, d: Disk, s: set<Pair>, i0: seq<Write>, i1: seq<Write>, k: nat)
    requires Clean(d) && Paired(mk, d, s) && Inside(0, i0) && Inside(1, i1)
    requires PairOf(mk, MetaEffect(d.m0, i0)) in s && PairOf(mk, MetaEffect(d.m1, i1)) in s
    ensures Paired(mk, Crash(d, Scope(0, i0) + Scope(1, i1), k), s)
    ensures var r := Run(d, Scope(0, i0) + Scope(1, i1)); Clean(r) && Paired(mk, r, s)
  {
    var s0, s1 := Scope(0, i0), Scope(1, i1);
    RunAppend(d, s0, s1);
    ScopeKeeps(mk, d, s, 0, i0, k);
    var d1 := Run(d, s0);
    ScopeKeeps(mk, d1, s, 1, i1, if k < |s0| then 0 else k - |s0|);
    if k <= |s0| {
      CrashFirst(d, s0, s1, k);
    } else {
      CrashSecond(d, s0, s1, k);
    }
  }

  lemma SetInnerEffect(mk: Marker, other: Marker, m: Metadata, c: Bit, x: Pair)
    ensures Inside(c, SetInner(c, mk, x))
    ensures PairOf(other, MetaEffect(m, SetInner(c, mk, x))) == if other == mk then x else PairOf(other, m)
  {
    Steps2(m, SetInner(c, mk, x));
  }

  // ---------------------------------------------------------------- programs

  lemma AppendNoMarkers(a: seq<Write>, b: seq<Write>)
    requires NoMarkers(a) && NoMarkers(b)
    ensures NoMarkers(a + b)
  {
  }

  lemma FrontNoMarkers(c: Bit, x: Metadata, mount: Metadata, pi: Bit, cells: Cells, e: Pos, n: Pos)
    ensures NoMarkers(ActivateFront(c, x, mount, pi, cells, e, n))
  {
    var p := x.ring(pi);
    var newLb := RaisedLowerBound(p, Cap(n, e));
    var bump, copies := ActivateBump(c, x, pi, e, n), ActivateCopies(c, x, mount, pi, cells, e, n);
    RelocateNoMarkers(c, cells, ShrinkSpan(x, mount, pi, n), e, 2 * Cap(n, e), Cap(n, e), newLb,
                      Window(newLb, p.nextVersion));
    AppendNoMarkers(bump, copies);
    MovesNoMarkers(c, x, pi, n, 1 - pi, 0, n);
    AppendNoMarkers(bump + copies, MoveSlots(c, x, pi, n, 1 - pi, 0, n));
  }

  lemma ActivateNoMarkers(c: Bit, x: Metadata, mount: Metadata, pi: Bit, cells: Cells, e: Pos, n: Pos)
    ensures NoMarkers(ActivateInner(c, x, mount, pi, cells, e, n))
  {
    var front, blank := ActivateFront(c, x, mount, pi, cells, e, n), ActivateBlank(c, x, pi, e, n);
    FrontNoMarkers(c, x, mount, pi, cells, e, n);
    FillNoMarkers(c, MovedIds(x, pi, n, 1 - pi, 0, n), e, 0, Cap(n, e));
    AppendNoMarkers(front, blank);
    AppendNoMarkers(front + blank, ActivateCommit(c, pi, n));
  }

  lemma DataNoMarkers(c: Bit, x: Metadata, mount: Metadata, pi: Bit, cells: Cells, e: Pos, n: nat)
    ensures NoMarkers(DeactivateData(c, x, mount, pi, cells, e, n))
  {
    var p := x.ring(pi);
    if 0 < p.len < n {
      var span := GrowSpan(x, mount, pi, n);
      var lo, w := p.lowerBound, Window(p.lowerBound, p.nextVersion);
      FillNoMarkers(c, span, e, Cap(p.len, e), Cap(n - p.len, e));
      RelocateNoMarkers(c, cells, span, e, Cap(p.len, e), Cap(n, e), lo, w);
      AppendNoMarkers(Fill(c, span, e, Cap(p.len, e), Cap(n - p.len, e)),
                      Relocate(c, cells, span, e, Cap(p.len, e), Cap(n, e), lo, w));
    }
  }

  lemma DeactivateNoMarkers(c: Bit, x: Metadata, mount: Metadata, pi: Bit, cells: Cells, e: Pos, n: nat)
    ensures NoMarkers(DeactivateInner(c, x, mount, pi, cells, e, n))
  {
    var moves, data := DeactivateMoves(c, x, pi, n), DeactivateData(c, x, mount, pi, cells, e, n);
    MovesNoMarkers(c, x, 1 - pi, 0, pi, x.ring(pi).len, Window(x.ring(pi).len, n));
    DataNoMarkers(c, x, mount, pi, cells, e, n);
    AppendNoMarkers(moves, data);
    AppendNoMarkers(moves + data, DeactivateCommit(c, pi, n));
  }

  lemma InnerNoMarkers(op: OpKind, c: Bit, x: Metadata, mount: Metadata, pi: Bit, cells: Cells, e: Pos, n: nat)
    ensures NoMarkers(Inner(op, c, x, mount, pi, cells, e, n))
  {
    match op
    case NoOp =>
    case Promote =>
    case Activate => if n != 0 { ActivateNoMarkers(c, x, mount, pi, cells, e, n); }
    case Deactivate => DeactivateNoMarkers(c, x, mount, pi, cells, e, n);
  }

  lemma {:induction false} FillNoMarkers(c: Bit, span: seq<nat>, e: Pos, lo: nat, n: nat)
    ensures NoMarkers(Fill(c, span, e, lo, n))
  {
    if n != 0 {
      FillNoMarkers(c, span, e, lo, n - 1);
    }
  }

  lemma {:induction false} RelocateNoMarkers(c: Bit, cells: Cells, span: seq<nat>, e: Pos, oldCap: Pos, newCap: Pos,
                                             lo: nat, n: nat)
    ensures NoMarkers(Relocate(c, cells, span, e, oldCap, newCap, lo, n))
  {
    if n != 0 {
      RelocateNoMarkers(c, cells, span, e, oldCap, newCap, lo, n - 1);
    }
  }

  lemma {:induction false} MovesNoMarkers(c: Bit, x: Metadata, from: Bit, fromBase: nat, to: Bit, toBase: nat, n: nat)
    ensures NoMarkers(MoveSlots(c, x, from, fromBase, to, toBase, n))
  {
    if n != 0 {
      MovesNoMarkers(c, x, from, fromBase, to, toBase, n - 1);
    }
  }

  /** Two scopes that store no marker. */
  lemma QuietScopes(mk: Marker, d: Disk, s: set<Pair>, i0: seq<Write>, i1: seq<Write>, k: nat)
    requires Clean(d) && Paired(mk, d, s) && Inside(0, i0) && Inside(1, i1) && NoMarkers(i0) && NoMarkers(i1)
    ensures Paired(mk, Crash(d, Scope(0, i0) + Scope(1, i1), k), s)
    ensures var r := Run(d, Scope(0, i0) + Scope(1, i1)); Clean(r) && Paired(mk, r, s)
  {
    NoMarkersEffect(mk, d.m0, i0);
    NoMarkersEffect(mk, d.m1, i1);
    TwoScopesKeep(mk, d, s, i0, i1, k);
  }

  lemma CopiesKeep(mk: Marker, d: Disk, s: set<Pair>, op: OpKind, n: nat, k: nat)
    requires Clean(d) && Paired(mk, d, s)
    ensures var both := BodyScope(op, d, d.m0, 0, n) + BodyScope(op, d, d.m0, 1, n);
            Paired(mk, Crash(d, both, k), s) && Clean(Run(d, both)) && Paired(mk, Run(d, both), s)
  {
    InnerInside(op, 0, d.m0, d.m0, d.m0.primary, d.cells0, d.entries, n);
    InnerInside(op, 1, d.m1, d.m0, d.m0.primary, d.cells1, d.entries, n);
    InnerNoMarkers(op, 0, d.m0, d.m0, d.m0.primary, d.cells0, d.entries, n);
    InnerNoMarkers(op, 1, d.m1, d.m0, d.m0.primary, d.cells1, d.entries, n);
    QuietScopes(mk, d, s, Inner(op, 0, d.m0, d.m0, d.m0.primary, d.cells0, d.entries, n),
                Inner(op, 1, d.m1, d.m0, d.m0.primary, d.cells1, d.entries, n), k);
  }

  lemma HistoryKeeps(mk: Marker, d: Disk, s: set<Pair>, op: OpKind, d0: Disk, n: nat, k: nat)
    requires Clean(d) && Paired(mk, d, s)
    ensures var hs := HistoryWrites(op, d0, n);
            Paired(mk, Crash(d, hs, k), s) && Clean(Run(d, hs)) && Paired(mk, Run(d, hs), s)
  {
    if HistoryWrites(op, d0, n) != [] {
      var h := Max(Cap(n, d0.entries), MIN_HISTORY_LENGTH);
      QuietScopes(mk, d, s, [Store(0, HistoryLength(h))], [Store(1, HistoryLength(h))], k);
    }
  }

  lemma BodyKeeps(mk: Marker, d: Disk, s: set<Pair>, op: OpKind, n: nat, k: nat)
    requires Clean(d) && Paired(mk, d, s)
    ensures Paired(mk, Crash(d, Body(op, d, n), k), s)
    ensures var r := Run(d, Body(op, d, n)); Clean(r) && Paired(mk, r, s)
  {
    var both, hs := BodyScope(op, d, d.m0, 0, n) + BodyScope(op, d, d.m0, 1, n), HistoryWrites(op, d, n);
    CopiesKeep(mk, d, s, op, n, k);
    var d1 := Run(d, both);
    HistoryKeeps(mk, d1, s, op, d, n, if k <= |both| then 0 else k - |both|);
    RunAppend(d, both, hs);
    CrashSplit(d, both, hs, k);
  }

  lemma PendingKeeps(mk: Marker, d: Disk, s: set<Pair>, op: OpKind, n: nat, k: nat)
    requires Clean(d) && Paired(mk, d, s)
    ensures Paired(mk, Crash(d, Stamp(op, n), k), s)
    ensures var r := Run(d, Stamp(op, n)); Clean(r) && Paired(mk, r, s)
  {
    QuietScopes(mk, d, s, [Store(0, PendingKind(op)), Store(0, PendingParam(n))],
                [Store(1, PendingKind(op)), Store(1, PendingParam(n))], k);
  }

  lemma BodyClearKeeps(mk: Marker, d: Disk, s: set<Pair>, op: OpKind, n: nat, k: nat)
    requires Clean(d) && Paired(mk, d, s)
    ensures Paired(mk, Crash(d, Body(op, d, n) + Clear(), k), s)
    ensures var r := Run(d, Body(op, d, n) + Clear()); Clean(r) && Paired(mk, r, s)
  {
    var body := Body(op, d, n);
    BodyKeeps(mk, d, s, op, n, k);
    var d1 := Run(d, body);
    RunAppend(d, body, Clear());
    assert Clear() == Stamp(NoOp, 0);
    PendingKeeps(mk, d1, s, NoOp, 0, if k <= |body| then 0 else k - |body|);
    if k <= |body| {
      CrashFirst(d, body, Clear(), k);
    } else {
      CrashSecond(d, body, Clear(), k);
    }
  }

  lemma OperationKeeps(mk: Marker, d: Disk, s: set<Pair>, op: OpKind, k: nat)
    requires Clean(d) && Paired(mk, d, s)
    ensures Paired(mk, Crash(d, Operation(op, d), k), s)
  {
    var n := Target(op, d.m0);
    var st := Stamp(op, n);
    PendingKeeps(mk, d, s, op, n, k);
    var d1 := Run(d, st);
    var rest := Body(op, d1, n) + Clear();
    assert Operation(op, d) == st + rest by { Regroup(st, Body(op, d1, n), [], Clear()); }
    if k <= |st| {
      CrashFirst(d, st, rest, k);
    } else {
      CrashSecond(d, st, rest, k);
      BodyClearKeeps(mk, d1, s, op, n, k - |st|);
    }
  }

  lemma RestoreKeeps(mk: Marker, d: Disk, s: set<Pair>, k: nat)
    requires Paired(mk, d, s)
    ensures Paired(mk, Crash(d, Restore(d), k), s)
    ensures var r := Run(d, Restore(d)); Clean(r) && Paired(mk, r, s)
  {
    RestoreDone(d);
    if !Clean(d) {
      var c: Bit := if d.dirty0 then 0 else 1;
      var inner := CopyInner(c, d.meta(1 - c));
      CopyInnerEffect(c, d.meta(1 - c), d.meta(c));
      if 0 < k < |Scope(c, inner)| {
        ScopeOpen(d, c, inner, k);
      } else if k != 0 {
        CrashWhole(d, Restore(d), k);
      }
    }
  }

  lemma OpenKeeps(mk: Marker, d: Disk, s: set<Pair>, k: nat)
    requires Paired(mk, d, s)
    ensures Paired(mk, Crash(d, Recovery(d), k), s)
    ensures var r := Recovered(d); Clean(r) && Paired(mk, r, s)
  {
    var re := Restore(d);
    RestoreKeeps(mk, d, s, k);
    var d1 := Run(d, re);
    RunAppend(d, re, Replay(d1));
    var j := if k <= |re| then 0 else k - |re|;
    if Intent(d1) {
      var (op, n) := if d1.m0.kind != NoOp then (d1.m0.kind, d1.m0.param) else (d1.m1.kind, d1.m1.param);
      BodyClearKeeps(mk, d1, s, op, n, j);
    }
    if k <= |re| {
      CrashFirst(d, re, Replay(d1), k);
    } else {
      CrashSecond(d, re, Replay(d1), k);
    }
  }

  // ---------------------------------------------------------------- every run

  lemma NextKeeps(mk: Marker, d: Disk, ev: Event, s: set<Pair>)
    requires Paired(mk, d, s) && (ev.Set? && ev.mk == mk ==> ev.x in s)
    ensures Paired(mk, Next(d, ev), s)
  {
    match ev
    case Set(m, x, k) =>
      if Clean(d) {
        SetInnerEffect(m, mk, d.m0, 0, x);
        SetInnerEffect(m, mk, d.m1, 1, x);
        TwoScopesKeep(mk, d, s, SetInner(0, m, x), SetInner(1, m, x), k);
      }
    case Operate(op, k) =>
      if Clean(d) {
        OperationKeeps(mk, d, s, op, k);
      }
    case Open(k) => OpenKeeps(mk, d, s, k);
  }

  lemma {:induction false} RunKeeps(mk: Marker, d: Disk, evs: seq<Event>)
    requires Clean(d)
    ensures Paired(mk, After(d, evs), Passed(mk, evs) + {PairOf(mk, d.m0), PairOf(mk, d.m1)})
  {
    if evs != [] {
      var rest := evs[..|evs| - 1];
      RunKeeps(mk, d, rest);
      var s := Passed(mk, evs) + {PairOf(mk, d.m0), PairOf(mk, d.m1)};
      assert Passed(mk, rest) <= Passed(mk, evs);
      NextKeeps(mk, After(d, rest), evs[|evs| - 1], s);
    }
  }

  /** After any run and one recovery, the voted (or proposed) version and block id that copy 0
      reports were passed together by one setter call, or were there initially; both copies
      are never dirty together on the way. */
  lemma MarkersNeverMix(mk: Marker, d: Disk, evs: seq<Event>)
    requires Clean(d)
    ensures PairOf(mk, Recovered(After(d, evs)).m0) in Passed(mk, evs) + {PairOf(mk, d.m0), PairOf(mk, d.m1)}
    ensures !(After(d, evs).dirty0 && After(d, evs).dirty1)
  {
    RunKeeps(mk, d, evs);
    OpenKeeps(mk, After(d, evs), Passed(mk, evs) + {PairOf(mk, d.m0), PairOf(mk, d.m1)}, 0);
  }

  // ---------------------------------------------------------------- a setter sets

  /** The header `m` with the marker at `x`: nothing else differs. */
  ghost predicate Marked(mk: Marker, x: Pair, m: Metadata, m': Metadata) {
    && PairOf(mk, m') == x
    && (forall other: Marker :: other != mk ==> PairOf(other, m') == PairOf(other, m))
    && m'.consensus.finalizedVersion == m.consensus.finalizedVersion
    && m'.consensus.verifiedVersion == m.consensus.verifiedVersion
    && m'.(consensus := m.consensus) == m
  }

  lemma SetInnerMarks(mk: Marker, m: Metadata, cells: Cells, c: Bit, x: Pair)
    ensures Inside(c, SetInner(c, mk, x)) && |SetInner(c, mk, x)| == 2
    ensures Marked(mk, x, m, MetaEffect(m, SetInner(c, mk, x)))
    ensures CellsEffect(cells, SetInner(c, mk, x)) == cells
  {
    Steps2(m, SetInner(c, mk, x));
    NoCells(cells, SetInner(c, mk, x));
  }

  /** On every clean disk a call that is not interrupted makes both copies hold the pair, and changes nothing else. */
  lemma SetterSets(mk: Marker, d: Disk, x: Pair)
    requires Clean(d)
    ensures var r := Run(d, SetMarker(mk, x));
            && Clean(r) && Marked(mk, x, d.m0, r.m0) && Marked(mk, x, d.m1, r.m1)
            && r.cells0 == d.cells0 && r.cells1 == d.cells1 && r.entries == d.entries
  {
    var i0, i1 := SetInner(0, mk, x), SetInner(1, mk, x);
    SetInnerMarks(mk, d.m0, d.cells0, 0, x);
    SetInnerMarks(mk, d.m1, d.cells1, 1, x);
    ScopeClosed(d, 0, i0);
    ScopeClosed(Run(d, Scope(0, i0)), 1, i1);
    RunAppend(d, Scope(0, i0), Scope(1, i1));
  }

  lemma ApplyKeepsPair(mk: Marker, d: Disk, w: Write)
    requires w.Store? ==> !MarkerField(w.f)
    ensures PairOf(mk, Apply(d, w).m0) == PairOf(mk, d.m0)
  {
    if w.Store? && w.c == 0 {
      PutKeeps(mk, d.m0, w.f);
    }
  }

  lemma {:induction false} QuietRun(mk: Marker, d: Disk, ws: seq<Write>)
    requires NoMarkers(ws)
    ensures PairOf(mk, Run(d, ws).m0) == PairOf(mk, d.m0)
  {
    if ws != [] {
      QuietRun(mk, d, ws[..|ws| - 1]);
      ApplyKeepsPair(mk, Run(d, ws[..|ws| - 1]), ws[|ws| - 1]);
    }
  }

  lemma ScopeNoMarkers(c: Bit, inner: seq<Write>)
    requires NoMarkers(inner)
    ensures NoMarkers(Scope(c, inner))
  {
  }

  lemma BothNoMarkers(op: OpKind, d: Disk, n: nat)
    ensures NoMarkers(BodyScope(op, d, d.m0, 0, n) + BodyScope(op, d, d.m0, 1, n))
  {
    InnerNoMarkers(op, 0, d.m0, d.m0, d.m0.primary, d.cells0, d.entries, n);
    InnerNoMarkers(op, 1, d.m1, d.m0, d.m0.primary, d.cells1, d.entries, n);
    ScopeNoMarkers(0, Inner(op, 0, d.m0, d.m0, d.m0.primary, d.cells0, d.entries, n));
    ScopeNoMarkers(1, Inner(op, 1, d.m1, d.m0, d.m0.primary, d.cells1, d.entries, n));
    AppendNoMarkers(BodyScope(op, d, d.m0, 0, n), BodyScope(op, d, d.m0, 1, n));
  }

  lemma BodyNoMarkers(op: OpKind, d: Disk, n: nat)
    ensures NoMarkers(Body(op, d, n) + Clear())
  {
    BothNoMarkers(op, d, n);
    AppendNoMarkers(BodyScope(op, d, d.m0, 0, n) + BodyScope(op, d, d.m0, 1, n), HistoryWrites(op, d, n));
    AppendNoMarkers(Body(op, d, n), Clear());
  }

  lemma ReplayNoMarkers(d: Disk)
    ensures NoMarkers(Replay(d))
  {
    if Intent(d) {
      var (op, n) := if d.m0.kind != NoOp then (d.m0.kind, d.m0.param) else (d.m1.kind, d.m1.param);
      BodyNoMarkers(op, d, n);
    }
  }

  /** An open reports the pair of whichever header dirty recovery reinstates, also when it replays an operation. */
  lemma OpenReports(mk: Marker, d: Disk)
    requires !(d.dirty0 && d.dirty1)
    ensures PairOf(mk, Recovered(d).m0) == PairOf(mk, View(d, 0))
  {
    var d1 := Run(d, Restore(d));
    RestoreDone(d);
    RunAppend(d, Restore(d), Replay(d1));
    ReplayNoMarkers(d1);
    QuietRun(mk, d1, Replay(d1));
  }

  lemma KilledView(mk: Marker, d: Disk, x: Pair, k: nat)
    requires Clean(d)
    ensures var e := Crash(d, SetMarker(mk, x), k);
            && !(e.dirty0 && e.dirty1)
            && PairOf(mk, View(e, 0)) == if 4 <= k then x else if k == 0 then PairOf(mk, d.m0) else PairOf(mk, d.m1)
  {
    var i0, i1 := SetInner(0, mk, x), SetInner(1, mk, x);
    var s0, s1 := Scope(0, i0), Scope(1, i1);
    SetInnerMarks(mk, d.m0, d.cells0, 0, x);
    SetInnerMarks(mk, d.m1, d.cells1, 1, x);
    if k < 4 {
      CrashFirst(d, s0, s1, k);
      if k > 0 {
        ScopeOpen(d, 0, i0, k);
      }
    } else {
      CrashSecond(d, s0, s1, k);
      ScopeClosed(d, 0, i0);
      KilledSecond(mk, Run(d, s0), i1, k - 4);
    }
  }

  lemma KilledSecond(mk: Marker, d: Disk, i1: seq<Write>, k: nat)
    requires Clean(d) && Inside(1, i1)
    ensures var e := Crash(d, Scope(1, i1), k); !(e.dirty0 && e.dirty1) && View(e, 0) == d.m0
  {
    if 0 < k < |Scope(1, i1)| {
      ScopeOpen(d, 1, i1, k);
    } else if k > 0 {
      CrashWhole(d, Scope(1, i1), k);
      ScopeClosed(d, 1, i1);
    }
  }

  /** A call killed once its four stores to copy 0 are made is reported after the next open; one killed earlier is not:
      the pair is the one copy 1 had, or that of copy 0 if nothing was stored. */
  lemma KilledSetter(mk: Marker, d: Disk, x: Pair, k: nat)
    requires Clean(d)
    ensures PairOf(mk, Recovered(Crash(d, SetMarker(mk, x), k)).m0)
            == if 4 <= k then x else if k == 0 then PairOf(mk, d.m0) else PairOf(mk, d.m1)
  {
    KilledView(mk, d, x, k);
    OpenReports(mk, Crash(d, SetMarker(mk, x), k));
  }

  /** Once a call has completed its pair is the one reported, through every run without another call of that setter. */
  lemma SetterSticks(mk: Marker, d: Disk, x: Pair, evs: seq<Event>)
    requires Clean(d) && forall ev :: ev in evs && ev.Set? ==> ev.mk != mk
    ensures PairOf(mk, Recovered(After(Run(d, SetMarker(mk, x)), evs)).m0) == x
  {
    SetterSets(mk, d, x);
    MarkersNeverMix(mk, Run(d, SetMarker(mk, x)), evs);
    assert Passed(mk, evs) == {};
  }
}
