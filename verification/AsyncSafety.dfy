/**
 What every interleaving of the asynchronous lookup keeps.
 */
module AsyncSafety {
  import opened Trie
  import opened World
  import opened AsyncFind

  // ---------------------------------------------------------------- one request

  ghost predicate InTrie(w: World, r: Req) {
    r.version in w.tries && r.version in w.roots && Sits(w.tries[r.version], w.roots[r.version], r.here, r.off)
  }

  /** Going on from node `here` gives the wanted outcome. */
  predicate Reaches(r: Req, next: Next) {
    match next
    case LoadRoot => r.want == Outcome(Success, r.here, 0)
    case Continue(key) => r.want == Find(r.here, 0, key)
  }

  /** Virtual offset `v` was given to the place of `here` and holds it; a valid version still has it there. */
  ghost predicate Held(w: World, r: Req, v: Virt) {
    && v in w.owner && w.owner[v] == r.off && v in w.home && w.home[v] == Flatten(r.here)
    && (r.version in w.live ==> Translate(w, r.off) == Some(v))
  }

  predicate Gone(w: World, r: Req) {
    r.known ==> r.version !in w.live
  }

  /** A definite answer is the one plain lookup gives; a version is reported gone only when it is. */
  predicate ResultOk(w: World, r: Req, res: Result) {
    match res.code
    case VersionGone => Gone(w, r) && (res.node.Some? ==> res.node == r.start && res.index == r.startIndex)
    case NeedIoThread => !r.ioThread && res.node == None
    case RootNull => !r.known && res.node == None
    case _ => res == Result(r.want.code, Some(Flatten(r.want.node)), r.want.index)
  }

  ghost predicate PcOk(w: World, r: Req) {
    match r.pc
    case Visit(node, i, key) =>
      r.start == node && r.startIndex == i &&
      if node == None then !r.known
      else InTrie(w, r) && node.value == Flatten(r.here) && i <= |r.here.path| && r.want == Find(r.here, i, key)
    case ReadRoot => true
    case ToVirtual(from, next) =>
      if from == None then Gone(w, r) else InTrie(w, r) && from.value == r.off && Reaches(r, next)
    case Check(from, to, next) =>
      if from == None then Gone(w, r)
      else && InTrie(w, r) && from.value == r.off && Reaches(r, next)
           && (to.Some? ==> to.value in w.owner && w.owner[to.value] == r.off)
           && (r.version in w.live ==> to.Some? && Translate(w, r.off) == to)
    case Probe(phys, v, next) => InTrie(w, r) && phys == r.off && Held(w, r, v) && Reaches(r, next)
    case Waiting(v, next) => InTrie(w, r) && Held(w, r, v) && Reaches(r, next) && r.ioThread
    case Done(res) => ResultOk(w, r, res)
  }

  ghost predicate ReqOk(w: World, r: Req) {
    && (r.known ==> r.version in w.tries)
    && r.sets == (if r.pc.Done? then 1 else 0)
    && PcOk(w, r)
  }

  lemma WriterKeepsReq(w: World, w': World, r: Req)
    requires WorldOk(w) && WriterStep(w, w') && ReqOk(w, r)
    ensures ReqOk(w', r)
  {
    if InTrie(w, r) {
      assert InTrie(w', r);
      if r.version in w'.live {
        assert r.version in w.live;
        assert Translate(w', r.off) == Translate(w, r.off);
      }
    }
  }

  /** Matching a node on its serialized form is the first part of plain lookup. */
  lemma {:induction false} MatchFind(n: Node, i: nat, key: Key)
    requires i <= |n.path|
    ensures Branch(n, i, key) == None ==>
              Match(Flatten(n), i, key)
                == Done(Result(Find(n, i, key).code, Some(Flatten(Find(n, i, key).node)), Find(n, i, key).index))
              && Find(n, i, key).code in {Success, KeyMismatch, BranchNotExist, KeyEndsEarlier}
    ensures Branch(n, i, key).Some? ==>
              var b := Branch(n, i, key).value;
              && b in n.kids && Match(Flatten(n), i, key).ToVirtual? && Match(Flatten(n), i, key).next.Continue?
              && Match(Flatten(n), i, key).from == Some(n.kids[b].offset)
              && Find(n, i, key) == Find(n.kids[b].node, 0, Match(Flatten(n), i, key).next.key)
              && |Match(Flatten(n), i, key).next.key| < |key|
    decreases |n.path| - i
  {
    if i < |n.path| && key != [] && key[0] == n.path[i] {
      MatchFind(n, i + 1, key[1..]);
    }
  }

  lemma LivePlaced(w: World, r: Req)
    requires WorldOk(w) && InTrie(w, r) && r.version in w.live
    ensures r.off in w.at && w.at[r.off] in w.home && w.home[w.at[r.off]] == Flatten(r.here)
    ensures w.at[r.off] in w.owner && w.owner[w.at[r.off]] == r.off
  {
    SitsPlaced(w, w.tries[r.version], w.roots[r.version], r.here, r.off);
  }

  lemma AdvanceVisit(w: World, r: Req)
    requires WorldOk(w) && ReqOk(w, r) && r.pc.Visit?
    ensures r.pc.node.Some? ==> r.pc.i <= |r.pc.node.value.path|
    ensures ReqOk(w, Advance(w, r)) && !Advance(w, r).pc.Waiting?
  {
    var Visit(node, i, key) := r.pc;
    if r.version in w.live && node.Some? {
      MatchFind(r.here, i, key);
      if Branch(r.here, i, key).Some? {
        SitsKid(w.tries[r.version], w.roots[r.version], r.here, r.off, Branch(r.here, i, key).value);
      }
    }
  }

  lemma AdvanceRest(w: World, r: Req)
    requires WorldOk(w) && ReqOk(w, r) && (r.pc.ReadRoot? || r.pc.ToVirtual? || r.pc.Check?)
    ensures ReqOk(w, Advance(w, r))
  {
    if InTrie(w, r) && r.version in w.live {
      LivePlaced(w, r);
    }
    if r.pc.ReadRoot? && r.version in w.live {
      assert Sits(w.tries[r.version], w.roots[r.version], w.tries[r.version], w.roots[r.version]);
    }
  }

  lemma ArriveOk(w: World, r: Req, v: Virt, next: Next)
    requires ReqOk(w, r) && InTrie(w, r) && Held(w, r, v) && Reaches(r, next) && !r.pc.Done?
    ensures ReqOk(w, Arrive(r, w.home[v], next))
  {
  }

  // ---------------------------------------------------------------- the shared tables

  ghost predicate ReqsOk(w: World, reqs: seq<Req>) {
    forall q :: 0 <= q < |reqs| ==> ReqOk(w, reqs[q])
  }

  /** The cache maps a virtual offset only to the node written there, and never one that is being read. */
  ghost predicate CacheOk(w: World, cache: map<Virt, Flat>, inflight: map<Virt, seq<nat>>) {
    forall v :: v in cache ==> v in w.home && cache[v] == w.home[v] && v !in inflight
  }

  ghost predicate ReadOk(w: World, rd: Read) {
    && rd.virt in w.owner && w.owner[rd.virt] == rd.phys && rd.virt in w.home
    && (rd.buf.Some? && Translate(w, rd.phys) == Some(rd.virt) ==> rd.buf.value == w.home[rd.virt])
  }

  ghost predicate ReadsOk(w: World, outstanding: seq<Read>) {
    forall j :: 0 <= j < |outstanding| ==> ReadOk(w, outstanding[j])
  }

  /** One outstanding read for every in-flight virtual offset, and no other. */
  ghost predicate OneRead(outstanding: seq<Read>, inflight: map<Virt, seq<nat>>) {
    && (forall j, k :: 0 <= j < k < |outstanding| ==> outstanding[j].virt != outstanding[k].virt)
    && (forall j :: 0 <= j < |outstanding| ==> outstanding[j].virt in inflight)
    && (forall v :: v in inflight ==> exists j :: 0 <= j < |outstanding| && outstanding[j].virt == v)
  }

  predicate NoRepeat(s: seq<nat>) {
    forall i, j :: 0 <= i < j < |s| ==> s[i] != s[j]
  }

  predicate Parks(reqs: seq<Req>, v: Virt, pend: seq<nat>) {
    NoRepeat(pend) && forall q :: q in pend ==> q < |reqs| && reqs[q].pc.Waiting? && reqs[q].pc.virt == v
  }

  /** The pending lists hold exactly the waiting requests, each once. */
  ghost predicate Parked(inflight: map<Virt, seq<nat>>, reqs: seq<Req>) {
    && (forall v :: v in inflight ==> Parks(reqs, v, inflight[v]))
    && (forall q: nat :: q < |reqs| && reqs[q].pc.Waiting? ==>
        reqs[q].pc.virt in inflight && q in inflight[reqs[q].pc.virt])
  }

  ghost predicate Inv(s: State) {
    && WorldOk(s.w) && ReqsOk(s.w, s.reqs) && CacheOk(s.w, s.cache, s.inflight) && ReadsOk(s.w, s.outstanding)
    && OneRead(s.outstanding, s.inflight) && Parked(s.inflight, s.reqs)
  }

  // ---------------------------------------------------------------- preservation, step by step

  lemma WriterKeeps(s: State, w': World)
    requires Inv(s) && WriterStep(s.w, w')
    ensures Inv(s.(w := w'))
  {
    forall q | 0 <= q < |s.reqs| ensures ReqOk(w', s.reqs[q]) {
      WriterKeepsReq(s.w, w', s.reqs[q]);
    }
    forall j | 0 <= j < |s.outstanding| ensures ReadOk(w', s.outstanding[j]) {
      WriterKeepsRead(s.w, w', s.outstanding[j]);
    }
    WriterKeepsCache(s.w, w', s.cache, s.inflight);
  }

  lemma WriterKeepsRead(w: World, w': World, rd: Read)
    requires WriterStep(w, w') && ReadOk(w, rd)
    ensures ReadOk(w', rd)
  {
  }

  lemma WriterKeepsCache(w: World, w': World, cache: map<Virt, Flat>, inflight: map<Virt, seq<nat>>)
    requires WriterStep(w, w') && CacheOk(w, cache, inflight)
    ensures CacheOk(w', cache, inflight)
  {
  }

  /** Replacing a request that neither was nor becomes parked. */
  lemma ReplaceKeeps(s: State, q: nat, r: Req)
    requires Inv(s) && q < |s.reqs| && !s.reqs[q].pc.Waiting? && !r.pc.Waiting? && ReqOk(s.w, r)
    ensures Inv(s.(reqs := s.reqs[q := r]))
  {
    var reqs := s.reqs[q := r];
    forall v | v in s.inflight ensures Parks(reqs, v, s.inflight[v]) {
      assert Parks(s.reqs, v, s.inflight[v]);
    }
  }

  lemma AddKeeps(s: State, r: Req)
    requires Inv(s) && !r.pc.Waiting? && ReqOk(s.w, r)
    ensures Inv(s.(reqs := s.reqs + [r]))
  {
    var reqs := s.reqs + [r];
    forall v | v in s.inflight ensures Parks(reqs, v, s.inflight[v]) {
      assert Parks(s.reqs, v, s.inflight[v]);
    }
    forall q: nat | q < |reqs| && reqs[q].pc.Waiting?
      ensures reqs[q].pc.virt in s.inflight && q in s.inflight[reqs[q].pc.virt] {
      assert reqs[q] == s.reqs[q];
    }
  }

  lemma ParkKeeps(inflight: map<Virt, seq<nat>>, reqs: seq<Req>, q: nat, r: Req, v: Virt)
    requires Parked(inflight, reqs) && q < |reqs| && !reqs[q].pc.Waiting? && r.pc.Waiting? && r.pc.virt == v
    ensures Parked(inflight[v := (if v in inflight then inflight[v] else []) + [q]], reqs[q := r])
  {
    var before := if v in inflight then inflight[v] else [];
    var inflight', reqs' := inflight[v := before + [q]], reqs[q := r];
    forall u | u in inflight' ensures Parks(reqs', u, inflight'[u]) {
      assert u in inflight ==> Parks(reqs, u, inflight[u]);
    }
  }

  lemma ProbeKeeps(s: State, q: nat)
    requires Inv(s) && q < |s.reqs| && s.reqs[q].pc.Probe?
    ensures Inv(DoProbe(s, q))
  {
    var r := s.reqs[q];
    var Probe(phys, v, next) := r.pc;
    if v in s.cache {
      ArriveOk(s.w, r, v, next);
      ReplaceKeeps(s, q, Arrive(r, s.cache[v], next));
    } else if !r.ioThread {
      ReplaceKeeps(s, q, Finish(r, Result(NeedIoThread, None, 0)));
    } else {
      ProbeParks(s, q);
    }
  }

  lemma ProbeParks(s: State, q: nat)
    requires Inv(s) && q < |s.reqs| && s.reqs[q].pc.Probe? && s.reqs[q].pc.virt !in s.cache && s.reqs[q].ioThread
    ensures Inv(DoProbe(s, q))
  {
    var r := s.reqs[q];
    var Probe(phys, v, next) := r.pc;
    var r' := r.(pc := Waiting(v, next));
    ParkKeeps(s.inflight, s.reqs, q, r', v);
    assert ReqOk(s.w, r');
    if v !in s.inflight {
      NewRead(s.w, s.outstanding, s.inflight, Read(phys, v, None), [q]);
      assert [] + [q] == [q];
    } else {
      JoinRead(s.outstanding, s.inflight, v, s.inflight[v] + [q]);
    }
  }

  lemma JoinRead(outstanding: seq<Read>, inflight: map<Virt, seq<nat>>, v: Virt, pend: seq<nat>)
    requires OneRead(outstanding, inflight) && v in inflight
    ensures OneRead(outstanding, inflight[v := pend])
  {
  }

  lemma NewRead(w: World, outstanding: seq<Read>, inflight: map<Virt, seq<nat>>, rd: Read, pend: seq<nat>)
    requires ReadsOk(w, outstanding) && OneRead(outstanding, inflight) && ReadOk(w, rd) && rd.virt !in inflight
    ensures ReadsOk(w, outstanding + [rd]) && OneRead(outstanding + [rd], inflight[rd.virt := pend])
  {
    var out, inflight' := outstanding + [rd], inflight[rd.virt := pend];
    forall v | v in inflight' ensures exists j :: 0 <= j < |out| && out[j].virt == v {
      if v == rd.virt {
        assert out[|outstanding|].virt == v;
      } else {
        var j :| 0 <= j < |outstanding| && outstanding[j].virt == v;
        assert out[j].virt == v;
      }
    }
  }

  lemma FetchKeeps(s: State, j: nat, n: Flat)
    requires Inv(s) && Enabled(s, Fetch(j, n))
    ensures Inv(s.(outstanding := s.outstanding[j := s.outstanding[j].(buf := Some(n))]))
  {
    var out := s.outstanding[j := s.outstanding[j].(buf := Some(n))];
    assert ReadOk(s.w, out[j]);
    forall v | v in s.inflight ensures exists k :: 0 <= k < |out| && out[k].virt == v {
      var k :| 0 <= k < |s.outstanding| && s.outstanding[k].virt == v;
      assert out[k].virt == v;
    }
  }

  // ---------------------------------------------------------------- completion

  lemma {:induction false} WakeAllIs(reqs: seq<Req>, pend: seq<nat>, n: Option<Flat>, q: nat)
    requires NoRepeat(pend) && (forall k :: 0 <= k < |pend| ==> pend[k] < |reqs|) && q < |reqs|
    ensures WakeAll(reqs, pend, n)[q] == if q in pend then Wake(reqs[q], n) else reqs[q]
    decreases |pend|
  {
    if pend != [] {
      var rest := pend[1..];
      forall i, j | 0 <= i < j < |rest| ensures rest[i] != rest[j] {
        assert rest[i] == pend[i + 1] && rest[j] == pend[j + 1];
      }
      assert pend[0] !in rest;
      WakeAllIs(reqs[pend[0] := Wake(reqs[pend[0]], n)], rest, n, q);
    }
  }

  lemma WakeOk(w: World, rd: Read, r: Req)
    requires WorldOk(w) && ReadOk(w, rd) && rd.buf.Some? && ReqOk(w, r) && r.pc.Waiting? && r.pc.virt == rd.virt
    ensures ReqOk(w, Wake(r, if Translate(w, rd.phys) == Some(rd.virt) then rd.buf else None))
    ensures !Wake(r, if Translate(w, rd.phys) == Some(rd.virt) then rd.buf else None).pc.Waiting?
  {
    if Translate(w, rd.phys) == Some(rd.virt) {
      ArriveOk(w, r, rd.virt, r.pc.next);
    }
  }

  lemma DropRead(w: World, outstanding: seq<Read>, inflight: map<Virt, seq<nat>>, j: nat)
    requires ReadsOk(w, outstanding) && OneRead(outstanding, inflight) && j < |outstanding|
    ensures var out := outstanding[..j] + outstanding[j + 1..];
            ReadsOk(w, out) && OneRead(out, inflight - {outstanding[j].virt})
  {
    var out, v0 := outstanding[..j] + outstanding[j + 1..], outstanding[j].virt;
    forall k | 0 <= k < |out| ensures out[k] == outstanding[if k < j then k else k + 1] {
    }
    forall v | v in inflight - {v0} ensures exists k :: 0 <= k < |out| && out[k].virt == v {
      var k :| 0 <= k < |outstanding| && outstanding[k].virt == v;
      assert out[if k < j then k else k - 1].virt == v;
    }
  }

  lemma WakeKeepsReqs(s: State, j: nat)
    requires Inv(s) && Enabled(s, Complete(j))
    ensures ReqsOk(s.w, DoComplete(s, j).reqs) && Parked(DoComplete(s, j).inflight, DoComplete(s, j).reqs)
  {
    var rd := s.outstanding[j];
    var n := if Translate(s.w, rd.phys) == Some(rd.virt) then rd.buf else None;
    var pend := s.inflight[rd.virt];
    assert Parks(s.reqs, rd.virt, pend);
    var reqs, inflight := WakeAll(s.reqs, pend, n), s.inflight - {rd.virt};
    forall q: nat | q < |reqs|
      ensures ReqOk(s.w, reqs[q])
      ensures q in pend ==> !reqs[q].pc.Waiting?
      ensures q !in pend ==> reqs[q] == s.reqs[q]
    {
      WakeAllIs(s.reqs, pend, n, q);
      if q in pend {
        WakeOk(s.w, rd, s.reqs[q]);
      }
    }
    forall v | v in inflight ensures Parks(reqs, v, inflight[v]) {
      assert Parks(s.reqs, v, s.inflight[v]);
    }
  }

  lemma CompleteKeeps(s: State, j: nat)
    requires Inv(s) && Enabled(s, Complete(j))
    ensures Inv(DoComplete(s, j))
    ensures s.outstanding[j].virt !in s.cache
    ensures var rd, s' := s.outstanding[j], DoComplete(s, j);
            && (Translate(s.w, rd.phys) == Some(rd.virt) <==> rd.virt in s'.cache)
            && forall q :: 0 <= q < |s'.reqs| && s'.reqs[q].pc.Waiting? ==> s'.reqs[q].pc.virt != rd.virt
  {
    DropRead(s.w, s.outstanding, s.inflight, j);
    WakeKeepsReqs(s, j);
    assert ReadOk(s.w, s.outstanding[j]);
    forall q: nat | q < |DoComplete(s, j).reqs| && DoComplete(s, j).reqs[q].pc.Waiting?
      ensures DoComplete(s, j).reqs[q].pc.virt != s.outstanding[j].virt
    {
      assert DoComplete(s, j).reqs[q].pc.virt in DoComplete(s, j).inflight;
    }
  }

  // ---------------------------------------------------------------- every run

  lemma NewFindKeeps(s: State, step: Step)
    requires Inv(s) && (step.NewFind? || step.NewLoad?) && Enabled(s, step)
    ensures Inv(Do(s, step))
  {
    var r := Do(s, step).reqs[|s.reqs|];
    assert ReqOk(s.w, r);
    AddKeeps(s, r);
  }

  lemma RunKeeps(s: State, q: nat)
    requires Inv(s) && Enabled(s, Run(q))
    ensures Inv(Do(s, Run(q)))
  {
    var r := s.reqs[q];
    if r.pc.Probe? {
      ProbeKeeps(s, q);
    } else {
      if r.pc.Visit? {
        AdvanceVisit(s.w, r);
      } else {
        AdvanceRest(s.w, r);
      }
      ReplaceKeeps(s, q, Advance(s.w, r));
    }
  }

  lemma StepKeeps(s: State, step: Step)
    requires Inv(s) && Enabled(s, step)
    ensures Inv(Do(s, step))
  {
    match step
    case Writer(w) => WriterKeeps(s, w);
    case Evict(v) =>
    case NewFind(_, _, _, _, _, _) => NewFindKeeps(s, step);
    case NewLoad(_, _) => NewFindKeeps(s, step);
    case Run(q) => RunKeeps(s, q);
    case Fetch(j, n) => FetchKeeps(s, j, n);
    case Complete(j) => CompleteKeeps(s, j);
  }

  lemma {:induction false} RunKeepsInv(s: State, steps: seq<Step>)
    requires Inv(s) && Legal(s, steps)
    ensures Inv(After(s, steps))
    decreases |steps|
  {
    if steps != [] {
      StepKeeps(s, steps[0]);
      RunKeepsInv(Do(s, steps[0]), steps[1..]);
    }
  }

  /** In every interleaving of requests, completions, evictions and writer steps: at most one read is outstanding
      per virtual offset, none of a cached one, the cache holds what was written, every promise is set at most
      once, and an answer is that of plain lookup. */
  lemma EveryInterleaving(w: World, steps: seq<Step>)
    requires WorldOk(w) && Legal(Init(w), steps)
    ensures var s := After(Init(w), steps);
            && (forall j, k :: 0 <= j < k < |s.outstanding| ==> s.outstanding[j].virt != s.outstanding[k].virt)
            && (forall j :: 0 <= j < |s.outstanding| ==> s.outstanding[j].virt !in s.cache)
            && (forall v :: v in s.cache ==> v in s.w.home && s.cache[v] == s.w.home[v])
            && (forall q :: 0 <= q < |s.reqs| ==> s.reqs[q].sets == if s.reqs[q].pc.Done? then 1 else 0)
            && (forall q :: 0 <= q < |s.reqs| && s.reqs[q].pc.Done? ==> ResultOk(s.w, s.reqs[q], s.reqs[q].pc.result))
  {
    RunKeepsInv(Init(w), steps);
    var s := After(Init(w), steps);
    forall q | 0 <= q < |s.reqs|
      ensures s.reqs[q].sets == if s.reqs[q].pc.Done? then 1 else 0
      ensures s.reqs[q].pc.Done? ==> ResultOk(s.w, s.reqs[q], s.reqs[q].pc.result)
    {
      assert ReqOk(s.w, s.reqs[q]);
    }
  }

  predicate SameHistory(r: Req, r': Req) {
    && r'.want == r.want && r'.known == r.known && r'.version == r.version && r'.ioThread == r.ioThread
    && !r'.pc.ReadRoot?
  }

  lemma HistoryAdvance(w: World, r: Req)
    requires ReqOk(w, r) && (r.pc.Visit? || r.pc.ToVirtual? || r.pc.Check?)
    ensures r.pc.Visit? && r.pc.node.Some? ==> r.pc.i <= |r.pc.node.value.path|
    ensures SameHistory(r, Advance(w, r))
  {
    if r.pc.Visit? && r.pc.node.Some? {
      MatchFind(r.here, r.pc.i, r.pc.key);
    }
  }

  lemma HistoryProbe(s: State, p: nat, q: nat)
    requires p < |s.reqs| && s.reqs[p].pc.Probe? && q < |s.reqs| && !s.reqs[q].pc.ReadRoot?
    ensures SameHistory(s.reqs[q], DoProbe(s, p).reqs[q])
  {
  }

  lemma HistoryWake(reqs: seq<Req>, v: Virt, pend: seq<nat>, n: Option<Flat>, q: nat)
    requires Parks(reqs, v, pend) && (forall k :: 0 <= k < |pend| ==> pend[k] < |reqs|) && q < |reqs|
             && !reqs[q].pc.ReadRoot?
    ensures SameHistory(reqs[q], WakeAll(reqs, pend, n)[q])
  {
    WakeAllIs(reqs, pend, n, q);
  }

  lemma HistoryComplete(s: State, j: nat, q: nat)
    requires Parked(s.inflight, s.reqs) && Enabled(s, Complete(j)) && q < |s.reqs| && !s.reqs[q].pc.ReadRoot?
    ensures SameHistory(s.reqs[q], DoComplete(s, j).reqs[q])
  {
    var rd := s.outstanding[j];
    HistoryWake(s.reqs, rd.virt, s.inflight[rd.virt], if Translate(s.w, rd.phys) == Some(rd.virt) then rd.buf else None,
                q);
  }

  lemma HistoryStep(s: State, step: Step, q: nat)
    requires Inv(s) && Enabled(s, step) && q < |s.reqs| && !s.reqs[q].pc.ReadRoot?
    ensures q < |Do(s, step).reqs| && SameHistory(s.reqs[q], Do(s, step).reqs[q])
  {
    match step
    case Run(p) =>
      if s.reqs[p].pc.Probe? {
        HistoryProbe(s, p, q);
      } else if p == q {
        HistoryAdvance(s.w, s.reqs[q]);
      }
    case Complete(j) => HistoryComplete(s, j, q);
    case _ =>
  }

  lemma {:induction false} HistoryRun(s: State, steps: seq<Step>, q: nat)
    requires Inv(s) && Legal(s, steps) && q < |s.reqs| && !s.reqs[q].pc.ReadRoot?
    ensures q < |After(s, steps).reqs| && SameHistory(s.reqs[q], After(s, steps).reqs[q])
    decreases |steps|
  {
    if steps != [] {
      HistoryStep(s, steps[0], q);
      StepKeeps(s, steps[0]);
      HistoryRun(Do(s, steps[0]), steps[1..], q);
    }
  }

  /** Whatever happens after a lookup is started from a node of a version's trie: its answer, if it is not that the
      version is gone or that the I/O thread is needed, is the answer of plain lookup from that node. */
  lemma AnswerIsFind(s: State, step: Step, steps: seq<Step>)
    requires Inv(s) && step.NewFind? && step.start.Some? && Enabled(s, step) && Legal(Do(s, step), steps)
    ensures var s' := After(Do(s, step), steps);
            && |s.reqs| < |s'.reqs|
            && var r := s'.reqs[|s.reqs|];
            && (r.pc.Done? ==> r.sets == 1)
            && (r.pc.Done? && r.pc.result.code == VersionGone ==> step.version !in s'.w.live)
            && (r.pc.Done? && r.pc.result.code == NeedIoThread ==> !step.ioThread)
            && (r.pc.Done? && r.pc.result.code !in {VersionGone, NeedIoThread} ==>
                  var o := Find(step.start.value, step.i, step.key);
                  r.pc.result == Result(o.code, Some(Flatten(o.node)), o.index))
  {
    StepKeeps(s, step);
    RunKeepsInv(Do(s, step), steps);
    HistoryRun(Do(s, step), steps, |s.reqs|);
    var s' := After(Do(s, step), steps);
    assert ReqOk(s'.w, s'.reqs[|s.reqs|]);
  }

  // ---------------------------------------------------------------- loading a root

  /** A load that has not looked yet, is about the root of its version, or reports that the version is gone or that
      the I/O thread is needed. */
  predicate Loading(w: World, r: Req) {
    match r.pc
    case ReadRoot => true
    case Visit(_, _, _) => false
    case ToVirtual(from, next) => next.LoadRoot? && (from.Some? ==> WantsRoot(w, r))
    case Check(from, _, next) => next.LoadRoot? && (from.Some? ==> WantsRoot(w, r))
    case Probe(_, _, next) => next.LoadRoot? && WantsRoot(w, r)
    case Waiting(_, next) => next.LoadRoot? && WantsRoot(w, r)
    case Done(res) => res.code in {VersionGone, NeedIoThread} || (res.code == Success && WantsRoot(w, r))
  }

  predicate SameCaller(r: Req, r': Req) {
    r'.version == r.version && r'.ioThread == r.ioThread && r'.known == r.known
  }

  predicate WantsRoot(w: World, r: Req) {
    r.version in w.tries && r.want == Outcome(Success, w.tries[r.version], 0)
  }

  lemma LoadAdvance(w: World, r: Req)
    requires Loading(w, r) && (r.pc.ReadRoot? || r.pc.ToVirtual? || r.pc.Check?)
    ensures Loading(w, Advance(w, r)) && SameCaller(r, Advance(w, r))
  {
  }

  lemma LoadProbe(s: State, p: nat, q: nat)
    requires p < |s.reqs| && s.reqs[p].pc.Probe? && q < |s.reqs| && Loading(s.w, s.reqs[q])
    ensures var r := DoProbe(s, p).reqs[q]; Loading(s.w, r) && SameCaller(s.reqs[q], r)
  {
  }

  lemma LoadComplete(s: State, j: nat, q: nat)
    requires Parked(s.inflight, s.reqs) && Enabled(s, Complete(j)) && q < |s.reqs| && Loading(s.w, s.reqs[q])
    ensures var r := DoComplete(s, j).reqs[q]; Loading(s.w, r) && SameCaller(s.reqs[q], r)
  {
    var rd := s.outstanding[j];
    WakeAllIs(s.reqs, s.inflight[rd.virt], if Translate(s.w, rd.phys) == Some(rd.virt) then rd.buf else None, q);
  }

  lemma LoadStep(s: State, step: Step, q: nat)
    requires Inv(s) && Enabled(s, step) && q < |s.reqs| && Loading(s.w, s.reqs[q])
    ensures var s' := Do(s, step);
            q < |s'.reqs| && Loading(s'.w, s'.reqs[q]) && SameCaller(s.reqs[q], s'.reqs[q])
  {
    match step
    case Run(p) =>
      if s.reqs[p].pc.Probe? {
        LoadProbe(s, p, q);
      } else if p == q {
        LoadAdvance(s.w, s.reqs[q]);
      }
    case Complete(j) => LoadComplete(s, j, q);
    case _ =>
  }

  lemma {:induction false} LoadRun(s: State, steps: seq<Step>, q: nat)
    requires Inv(s) && Legal(s, steps) && q < |s.reqs| && Loading(s.w, s.reqs[q])
    ensures var s' := After(s, steps);
            q < |s'.reqs| && Loading(s'.w, s'.reqs[q]) && SameCaller(s.reqs[q], s'.reqs[q])
    decreases |steps|
  {
    if steps != [] {
      LoadStep(s, steps[0], q);
      StepKeeps(s, steps[0]);
      LoadRun(Do(s, steps[0]), steps[1..], q);
    }
  }

  /** Whatever happens after a root is asked for: a successful load returns the root of that version's trie. */
  lemma LoadIsRoot(s: State, step: Step, steps: seq<Step>)
    requires Inv(s) && step.NewLoad? && Enabled(s, step) && Legal(Do(s, step), steps)
    ensures var s' := After(Do(s, step), steps);
            && |s.reqs| < |s'.reqs|
            && var r := s'.reqs[|s.reqs|];
            && (r.pc.Done? ==> r.sets == 1 && r.pc.result.code in {Success, VersionGone, NeedIoThread})
            && (r.pc.Done? && r.pc.result.code == VersionGone && step.version in s.w.tries ==>
                  step.version !in s'.w.live)
            && (r.pc.Done? && r.pc.result.code == NeedIoThread ==> !step.ioThread)
            && (r.pc.Done? && r.pc.result.code == Success ==>
                  step.version in s'.w.tries
                    && r.pc.result == Result(Success, Some(Flatten(s'.w.tries[step.version])), 0))
  {
    StepKeeps(s, step);
    RunKeepsInv(Do(s, step), steps);
    LoadRun(Do(s, step), steps, |s.reqs|);
    var s' := After(Do(s, step), steps);
    assert ReqOk(s'.w, s'.reqs[|s.reqs|]);
  }

  // ---------------------------------------------------------------- every lookup ends

  predicate Lookup(step: Step) {
    step.Run? || step.Fetch? || step.Complete?
  }

  function NextWork(next: Next): nat {
    match next
    case LoadRoot => 0
    case Continue(key) => 8 * |key| + 7
  }

  function ReqWork(r: Req): nat {
    match r.pc
    case Visit(_, _, key) => 8 * |key| + 7
    case ReadRoot => 7
    case ToVirtual(_, next) => NextWork(next) + 6
    case Check(_, _, next) => NextWork(next) + 5
    case Probe(_, _, next) => NextWork(next) + 4
    case Waiting(_, next) => NextWork(next) + 1
    case Done(_) => 0
  }

  function ReqsWork(reqs: seq<Req>): nat {
    if reqs == [] then 0 else ReqsWork(reqs[..|reqs| - 1]) + ReqWork(reqs[|reqs| - 1])
  }

  function ReadsWork(outstanding: seq<Read>): nat {
    if outstanding == [] then 0
    else ReadsWork(outstanding[..|outstanding| - 1]) + if outstanding[|outstanding| - 1].buf == None then 2 else 1
  }

  /** A bound on the lookup steps still to come. */
  function Work(s: State): nat {
    ReqsWork(s.reqs) + ReadsWork(s.outstanding)
  }

  lemma {:induction false} ReqsWorkPut(reqs: seq<Req>, q: nat, r: Req)
    requires q < |reqs|
    ensures ReqsWork(reqs[q := r]) == ReqsWork(reqs) - ReqWork(reqs[q]) + ReqWork(r)
    decreases |reqs|
  {
    var n := |reqs| - 1;
    if q == n {
      assert reqs[q := r][..n] == reqs[..n];
    } else {
      ReqsWorkPut(reqs[..n], q, r);
      assert reqs[q := r][..n] == reqs[..n][q := r];
    }
  }

  lemma {:induction false} ReadsWorkFetch(out: seq<Read>, j: nat, n: Flat)
    requires j < |out| && out[j].buf == None
    ensures ReadsWork(out[j := out[j].(buf := Some(n))]) < ReadsWork(out)
    decreases |out|
  {
    var m := |out| - 1;
    var rd := out[j].(buf := Some(n));
    if j == m {
      assert out[j := rd][..m] == out[..m];
    } else {
      ReadsWorkFetch(out[..m], j, n);
      assert out[j := rd][..m] == out[..m][j := rd];
    }
  }

  lemma {:induction false} ReadsWorkAppend(a: seq<Read>, b: seq<Read>)
    ensures ReadsWork(a + b) == ReadsWork(a) + ReadsWork(b)
    decreases |b|
  {
    if b == [] {
      assert a + b == a;
    } else {
      ReadsWorkAppend(a, b[..|b| - 1]);
      assert (a + b)[..|a + b| - 1] == a + b[..|b| - 1];
    }
  }

  lemma ReadsWorkDrop(out: seq<Read>, j: nat)
    requires j < |out|
    ensures ReadsWork(out[..j] + out[j + 1..]) < ReadsWork(out)
  {
    ReadsWorkAppend(out[..j], out[j + 1..]);
    ReadsWorkAppend(out[..j], [out[j]]);
    ReadsWorkAppend(out[..j] + [out[j]], out[j + 1..]);
    assert out[..j] + [out[j]] + out[j + 1..] == out;
  }

  lemma {:induction false} WakeAllWork(reqs: seq<Req>, pend: seq<nat>, n: Option<Flat>)
    requires NoRepeat(pend) && forall k :: 0 <= k < |pend| ==> pend[k] < |reqs| && reqs[pend[k]].pc.Waiting?
    ensures ReqsWork(WakeAll(reqs, pend, n)) <= ReqsWork(reqs)
    decreases |pend|
  {
    if pend != [] {
      var r := Wake(reqs[pend[0]], n);
      var rest, reqs' := pend[1..], reqs[pend[0] := r];
      ReqsWorkPut(reqs, pend[0], r);
      forall k | 0 <= k < |rest| ensures rest[k] < |reqs'| && reqs'[rest[k]].pc.Waiting? {
        assert rest[k] == pend[k + 1];
      }
      assert NoRepeat(rest);
      WakeAllWork(reqs', rest, n);
    }
  }

  lemma AdvanceWork(w: World, r: Req)
    requires ReqOk(w, r) && (r.pc.Visit? || r.pc.ReadRoot? || r.pc.ToVirtual? || r.pc.Check?)
    ensures r.pc.Visit? && r.pc.node.Some? ==> r.pc.i <= |r.pc.node.value.path|
    ensures ReqWork(Advance(w, r)) < ReqWork(r)
  {
    if r.pc.Visit? && r.pc.node.Some? {
      MatchFind(r.here, r.pc.i, r.pc.key);
    }
  }

  lemma ProbeWork(s: State, q: nat)
    requires q < |s.reqs| && s.reqs[q].pc.Probe?
    ensures Work(DoProbe(s, q)) < Work(s)
  {
    var s' := DoProbe(s, q);
    ReqsWorkPut(s.reqs, q, s'.reqs[q]);
    assert s'.reqs == s.reqs[q := s'.reqs[q]];
    if |s'.outstanding| != |s.outstanding| {
      assert s'.outstanding[..|s.outstanding|] == s.outstanding;
    }
  }

  /** Every lookup step uses up work; the writer and the cache give none back. */
  lemma LookupStepsShrink(s: State, step: Step)
    requires Inv(s) && Enabled(s, step)
    ensures Lookup(step) ==> Work(Do(s, step)) < Work(s)
    ensures step.Writer? || step.Evict? ==> Work(Do(s, step)) == Work(s)
  {
    match step
    case Run(q) => RunWork(s, q);
    case Fetch(j, n) => ReadsWorkFetch(s.outstanding, j, n);
    case Complete(j) => CompleteWork(s, j);
    case _ =>
  }

  lemma RunWork(s: State, q: nat)
    requires Inv(s) && Enabled(s, Run(q))
    ensures Work(Do(s, Run(q))) < Work(s)
  {
    assert ReqOk(s.w, s.reqs[q]);
    if s.reqs[q].pc.Probe? {
      ProbeWork(s, q);
    } else {
      AdvanceWork(s.w, s.reqs[q]);
      ReqsWorkPut(s.reqs, q, Advance(s.w, s.reqs[q]));
    }
  }

  lemma CompleteWork(s: State, j: nat)
    requires Inv(s) && Enabled(s, Complete(j))
    ensures Work(DoComplete(s, j)) < Work(s)
  {
    var rd := s.outstanding[j];
    assert Parks(s.reqs, rd.virt, s.inflight[rd.virt]);
    ReadsWorkDrop(s.outstanding, j);
    WakeAllWork(s.reqs, s.inflight[rd.virt], if Translate(s.w, rd.phys) == Some(rd.virt) then rd.buf else None);
  }

  function LookupSteps(steps: seq<Step>): nat {
    if steps == [] then 0 else (if Lookup(steps[0]) then 1 else 0) + LookupSteps(steps[1..])
  }

  predicate NoNewRequests(steps: seq<Step>) {
    forall step :: step in steps ==> !step.NewFind? && !step.NewLoad?
  }

  /** However writer steps and evictions are mixed in, the requests there are take boundedly many lookup steps. */
  lemma {:induction false} BoundedWork(s: State, steps: seq<Step>)
    requires Inv(s) && Legal(s, steps) && NoNewRequests(steps)
    ensures LookupSteps(steps) + Work(After(s, steps)) <= Work(s)
    decreases |steps|
  {
    if steps != [] {
      assert steps[0] in steps;
      LookupStepsShrink(s, steps[0]);
      StepKeeps(s, steps[0]);
      BoundedWork(Do(s, steps[0]), steps[1..]);
    }
  }

  /** As long as some promise is not set, some lookup step can be taken. */
  lemma NeverStuck(s: State, q: nat) returns (step: Step)
    requires Inv(s) && q < |s.reqs| && !s.reqs[q].pc.Done?
    ensures Lookup(step) && Enabled(s, step)
  {
    assert ReqOk(s.w, s.reqs[q]);
    if s.reqs[q].pc.Waiting? {
      var v := s.reqs[q].pc.virt;
      var j :| 0 <= j < |s.outstanding| && s.outstanding[j].virt == v;
      assert Parks(s.reqs, v, s.inflight[v]);
      assert ReadOk(s.w, s.outstanding[j]);
      if s.outstanding[j].buf.Some? {
        forall k | 0 <= k < |s.inflight[v]| ensures s.inflight[v][k] < |s.reqs| {
          assert s.inflight[v][k] in s.inflight[v];
        }
        step := Complete(j);
      } else {
        step := Fetch(j, s.w.home[v]);
      }
    } else {
      step := Run(q);
    }
  }

  /** When no lookup step is left, every promise has been set, exactly once. */
  lemma QuietMeansAnswered(s: State, q: nat)
    requires Inv(s) && q < |s.reqs| && forall step :: Lookup(step) ==> !Enabled(s, step)
    ensures s.reqs[q].pc.Done? && s.reqs[q].sets == 1
  {
    assert ReqOk(s.w, s.reqs[q]);
    if !s.reqs[q].pc.Done? {
      var step := NeverStuck(s, q);
      assert false;
    }
  }

  // ---------------------------------------------------------------- the order of the two checks

  /** Translation first, validity afterwards: the virtual offset is that of the node wanted. */
  lemma TranslateThenCheck(w0: World, w1: World, x: Version, n: Node, p: Phys)
    requires WorldOk(w0) && WriterStep(w0, w1)
    requires x in w0.tries && Sits(w0.tries[x], w0.roots[x], n, p) && x in w1.live
    ensures Translate(w0, p).Some? && Translate(w0, p).value in w1.home && w1.home[Translate(w0, p).value] == Flatten(n)
  {
    SitsPlaced(w0, w0.tries[x], w0.roots[x], n, p);
  }

  /** Validity first, translation afterwards: the writer can expire the version, recycle the chunk and write another
      node in between, and the lookup goes on from that node. */
  lemma CheckThenTranslateFails() returns (w0: World, w1: World, x: Version, n: Node, p: Phys)
    ensures WorldOk(w0) && WriterStep(w0, w1)
    ensures x in w0.tries && x in w0.roots && Sits(w0.tries[x], w0.roots[x], n, p) && x in w0.live
    ensures Translate(w1, p).Some? && Translate(w1, p).value in w1.home && w1.home[Translate(w1, p).value] != Flatten(n)
  {
    x, n, p := 0, Node([], Some([1]), 0, map[]), 0;
    var other := Flat([], Some([2]), 1, map[]);
    w0 := World(map[p := Flatten(n)], map[p := 0], map[0 := p], map[0 := Flatten(n)], {x}, map[x := p], map[x := n]);
    assert WorldOk(w0);
    assert Sits(n, p, n, p);
    var a := Expire(w0, x);
    ExpireIsWriterStep(w0, x);
    var b := Recycle(a, p, Some(1));
    RecycleIsWriterStep(a, p, Some(1));
    w1 := WriteNode(b, p, other);
    WriteNodeIsWriterStep(b, p, other);
    StepExtends(w0, a, b);
    StepExtends(w0, b, w1);
    assert Flatten(n).value == Some([1]) && other.value == Some([2]);
    assert n.value.value[0] != other.value.value[0];
  }
}
