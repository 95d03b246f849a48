/**
 Lookups whose nodes are in the cache.  The cache is asked before the thread is, so such a lookup
 is answered on every thread and without a read, as long as nothing is evicted; the writer may
 do what it likes meanwhile.
 */
module AsyncCache {
  import opened Trie
  import opened World
  import opened AsyncFind
  import opened AsyncSafety

  type Cache = map<Virt, Flat>

  /** The node at a physical offset can be found in the cache. */
  predicate Resident(w: World, cache: Cache, p: Phys) {
    Translate(w, p).Some? && Translate(w, p).value in cache
  }

  ghost predicate AllResident(w: World, cache: Cache, ps: set<Phys>) {
    forall p :: p in ps ==> Resident(w, cache, p)
  }

  ghost predicate NextResident(w: World, cache: Cache, here: Node, next: Next) {
    match next
    case LoadRoot => true
    case Continue(key) => AllResident(w, cache, Passes(here, 0, key))
  }

  /** All that the request still has to visit is in the cache, unless its version is gone. */
  ghost predicate Warm(w: World, cache: Cache, r: Req) {
    var live := r.version in w.live;
    match r.pc
    case Visit(node, i, key) =>
      node.Some? && live ==> i <= |r.here.path| && AllResident(w, cache, Passes(r.here, i, key))
    case ReadRoot => live && r.version in w.roots ==> Resident(w, cache, w.roots[r.version])
    case ToVirtual(from, next) =>
      from.Some? && live ==> Resident(w, cache, r.off) && NextResident(w, cache, r.here, next)
    case Check(from, _, next) =>
      from.Some? && live ==> Resident(w, cache, r.off) && NextResident(w, cache, r.here, next)
    case Probe(_, v, next) => v in cache && (live ==> NextResident(w, cache, r.here, next))
    case Waiting(_, _) => false
    case Done(res) => res.code != NeedIoThread
  }

  // ---------------------------------------------------------------- one request

  /** Leaving a node by a branch: the child is the first one passed. */
  lemma {:induction false} PassesBranch(n: Node, i: nat, key: Key)
    requires i <= |n.path|
    ensures Branch(n, i, key) == None ==> Match(Flatten(n), i, key).Done? && Passes(n, i, key) == {}
    ensures Branch(n, i, key).Some? ==>
              var b, pc := Branch(n, i, key).value, Match(Flatten(n), i, key);
              && b in n.kids && pc.ToVirtual? && pc.next.Continue?
              && Passes(n, i, key) == {n.kids[b].offset} + Passes(n.kids[b].node, 0, pc.next.key)
    decreases |n.path| - i
  {
    if i < |n.path| && key != [] && key[0] == n.path[i] {
      PassesBranch(n, i + 1, key[1..]);
    }
  }

  lemma VisitWarm(w: World, cache: Cache, r: Req)
    requires ReqOk(w, r) && r.pc.Visit? && Warm(w, cache, r)
    ensures r.pc.node.Some? ==> r.pc.i <= |r.pc.node.value.path|
    ensures Warm(w, cache, Advance(w, r))
  {
    var Visit(node, i, key) := r.pc;
    if node.Some? && r.version in w.live {
      PassesBranch(r.here, i, key);
      MatchFind(r.here, i, key);
    }
  }

  lemma AdvanceWarm(w: World, cache: Cache, r: Req)
    requires WorldOk(w) && ReqOk(w, r) && (r.pc.ReadRoot? || r.pc.ToVirtual? || r.pc.Check?) && Warm(w, cache, r)
    ensures Warm(w, cache, Advance(w, r))
  {
  }

  lemma ProbeWarm(s: State, p: nat, q: nat)
    requires Inv(s) && p < |s.reqs| && s.reqs[p].pc.Probe? && q < |s.reqs| && Warm(s.w, s.cache, s.reqs[q])
    ensures var s' := DoProbe(s, p); Warm(s'.w, s'.cache, s'.reqs[q])
  {
    if p == q {
      assert ReqOk(s.w, s.reqs[q]);
    }
  }

  // ---------------------------------------------------------------- the others

  lemma MoreCached(w: World, cache: Cache, cache': Cache, r: Req)
    requires Warm(w, cache, r) && cache.Keys <= cache'.Keys
    ensures Warm(w, cache', r)
  {
  }

  lemma CompleteWarm(s: State, j: nat, q: nat)
    requires Inv(s) && Enabled(s, Complete(j)) && q < |s.reqs| && Warm(s.w, s.cache, s.reqs[q])
    ensures var s' := DoComplete(s, j); Warm(s'.w, s'.cache, s'.reqs[q])
  {
    var rd := s.outstanding[j];
    assert Parks(s.reqs, rd.virt, s.inflight[rd.virt]);
    WakeAllIs(s.reqs, s.inflight[rd.virt], if Translate(s.w, rd.phys) == Some(rd.virt) then rd.buf else None, q);
    MoreCached(s.w, s.cache, DoComplete(s, j).cache, s.reqs[q]);
  }

  /** A child that is passed is a node of the trie. */
  lemma {:induction false} PassesSit(top: Node, root: Phys, n: Node, off: Phys, i: nat, key: Key, p: Phys)
    requires i <= |n.path| && Sits(top, root, n, off) && p in Passes(n, i, key)
    ensures exists m :: Sits(top, root, m, p)
    decreases |key|
  {
    if i < |n.path| {
      PassesSit(top, root, n, off, i + 1, key[1..], p);
    } else {
      var k := n.kids[key[0]];
      SitsKid(top, root, n, off, key[0]);
      if p != k.offset {
        PassesSit(top, root, k.node, k.offset, 0, key[1..], p);
      }
    }
  }

  /** What a version that stays valid passes stays where it is. */
  lemma PassesStay(w: World, w': World, cache: Cache, r: Req, i: nat, key: Key)
    requires WorldOk(w) && WriterStep(w, w') && InTrie(w, r) && r.version in w.live && r.version in w'.live
    requires i <= |r.here.path| && AllResident(w, cache, Passes(r.here, i, key))
    ensures AllResident(w', cache, Passes(r.here, i, key))
  {
    forall p | p in Passes(r.here, i, key) ensures Resident(w', cache, p) {
      PassesSit(w.tries[r.version], w.roots[r.version], r.here, r.off, i, key, p);
      var m :| Sits(w.tries[r.version], w.roots[r.version], m, p);
      assert Translate(w', p) == Translate(w, p);
    }
  }

  lemma NextStays(w: World, w': World, cache: Cache, r: Req, next: Next)
    requires WorldOk(w) && WriterStep(w, w') && InTrie(w, r) && r.version in w.live && r.version in w'.live
    requires NextResident(w, cache, r.here, next)
    ensures NextResident(w', cache, r.here, next)
  {
    if next.Continue? {
      PassesStay(w, w', cache, r, 0, next.key);
    }
  }

  lemma WriterWarm(w: World, w': World, cache: Cache, r: Req)
    requires WorldOk(w) && WriterStep(w, w') && ReqOk(w, r) && r.known && Warm(w, cache, r)
    ensures Warm(w', cache, r)
  {
    if r.version in w'.live {
      assert r.version in w.live;
      match r.pc
      case Visit(node, i, key) => if node.Some? { PassesStay(w, w', cache, r, i, key); }
      case ReadRoot =>
        var n, p := w.tries[r.version], w.roots[r.version];
        assert Sits(n, p, n, p);
        assert Translate(w', p) == Translate(w, p);
      case ToVirtual(from, next) =>
        if from.Some? {
          NextStays(w, w', cache, r, next);
          assert Translate(w', r.off) == Translate(w, r.off);
        }
      case Check(from, to, next) =>
        if from.Some? {
          NextStays(w, w', cache, r, next);
          assert Translate(w', r.off) == Translate(w, r.off);
        }
      case Probe(_, _, next) => NextStays(w, w', cache, r, next);
      case _ =>
    }
  }

  // ---------------------------------------------------------------- every run without evictions

  lemma StepWarm(s: State, step: Step, q: nat)
    requires Inv(s) && Enabled(s, step) && !step.Evict? && q < |s.reqs|
    requires s.reqs[q].known && Warm(s.w, s.cache, s.reqs[q])
    ensures var s' := Do(s, step); q < |s'.reqs| && s'.reqs[q].known && Warm(s'.w, s'.cache, s'.reqs[q])
  {
    assert ReqOk(s.w, s.reqs[q]);
    match step
    case Writer(w) => WriterWarm(s.w, w, s.cache, s.reqs[q]);
    case Run(p) => RunWarm(s, p, q);
    case Complete(j) =>
      CompleteWarm(s, j, q);
      var rd := s.outstanding[j];
      assert Parks(s.reqs, rd.virt, s.inflight[rd.virt]);
      WakeAllIs(s.reqs, s.inflight[rd.virt], if Translate(s.w, rd.phys) == Some(rd.virt) then rd.buf else None, q);
    case _ =>
  }

  lemma RunWarm(s: State, p: nat, q: nat)
    requires Inv(s) && Enabled(s, Run(p)) && q < |s.reqs| && s.reqs[q].known && Warm(s.w, s.cache, s.reqs[q])
    ensures var s' := Do(s, Run(p)); q < |s'.reqs| && s'.reqs[q].known && Warm(s'.w, s'.cache, s'.reqs[q])
  {
    if s.reqs[p].pc.Probe? {
      ProbeWarm(s, p, q);
    } else if p == q {
      assert ReqOk(s.w, s.reqs[q]);
      MoveWarm(s.w, s.cache, s.reqs[q]);
    }
  }

  lemma MoveWarm(w: World, cache: Cache, r: Req)
    requires WorldOk(w) && ReqOk(w, r) && Warm(w, cache, r) && r.known
    requires r.pc.Visit? || r.pc.ReadRoot? || r.pc.ToVirtual? || r.pc.Check?
    ensures r.pc.Visit? && r.pc.node.Some? ==> r.pc.i <= |r.pc.node.value.path|
    ensures Warm(w, cache, Advance(w, r)) && Advance(w, r).known
  {
    if r.pc.Visit? {
      VisitWarm(w, cache, r);
    } else {
      AdvanceWarm(w, cache, r);
    }
  }

  predicate NoEvictions(steps: seq<Step>) {
    forall step :: step in steps ==> !step.Evict?
  }

  lemma {:induction false} StaysWarm(s: State, steps: seq<Step>, q: nat)
    requires Inv(s) && Legal(s, steps) && NoEvictions(steps) && q < |s.reqs|
    requires s.reqs[q].known && Warm(s.w, s.cache, s.reqs[q])
    ensures var s' := After(s, steps); q < |s'.reqs| && Warm(s'.w, s'.cache, s'.reqs[q])
    decreases |steps|
  {
    if steps != [] {
      assert steps[0] in steps;
      StepWarm(s, steps[0], q);
      StepKeeps(s, steps[0]);
      StaysWarm(Do(s, steps[0]), steps[1..], q);
    }
  }

  /** A lookup whose children on the way are all cached when it starts never waits for a read and never asks for the I/O
      thread, on any thread and whatever the writer and other requests do, as long as nothing is evicted: it gives the
      answer of plain lookup, or its version is gone. */
  lemma CachedFind(s: State, step: Step, steps: seq<Step>)
    requires Inv(s) && step.NewFind? && step.start.Some? && Enabled(s, step) && Legal(Do(s, step), steps)
    requires NoEvictions(steps) && AllResident(s.w, s.cache, Passes(step.start.value, step.i, step.key))
    ensures var s' := After(Do(s, step), steps);
            && |s.reqs| < |s'.reqs|
            && var r, o := s'.reqs[|s.reqs|], Find(step.start.value, step.i, step.key);
            && !r.pc.Waiting?
            && (r.pc.Done? ==>
                  || r.pc.result == Result(o.code, Some(Flatten(o.node)), o.index)
                  || (r.pc.result.code == VersionGone && step.version !in s'.w.live))
  {
    StepKeeps(s, step);
    StaysWarm(Do(s, step), steps, |s.reqs|);
    AnswerIsFind(s, step, steps);
  }

  /** The same for loading a root. */
  lemma CachedLoad(s: State, step: Step, steps: seq<Step>)
    requires Inv(s) && step.NewLoad? && Enabled(s, step) && Legal(Do(s, step), steps) && NoEvictions(steps)
    requires step.version in s.w.tries && Resident(s.w, s.cache, s.w.roots[step.version])
    ensures var s' := After(Do(s, step), steps);
            && |s.reqs| < |s'.reqs|
            && var r := s'.reqs[|s.reqs|];
            && !r.pc.Waiting?
            && (r.pc.Done? ==>
                  || (step.version in s'.w.tries
                      && r.pc.result == Result(Success, Some(Flatten(s'.w.tries[step.version])), 0))
                  || (r.pc.result.code == VersionGone && step.version !in s'.w.live))
  {
    StepKeeps(s, step);
    StaysWarm(Do(s, step), steps, |s.reqs|);
    LoadIsRoot(s, step, steps);
  }
}
