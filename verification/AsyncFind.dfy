/**
 The asynchronous lookup as a state machine: many requests share a node cache and a table of
 in-flight reads while the writer expires versions and recycles chunks between any two steps.
 */
module AsyncFind {
  import opened Trie
  import opened World

  /** What a request does with the node it is waiting for. */
  datatype Next = LoadRoot | Continue(key: Key)

  datatype Result = Result(code: Code, node: Option<Flat>, index: nat)

  datatype Pc =
    | Visit(node: Option<Flat>, i: nat, key: Key)
    | ReadRoot
    | ToVirtual(from: Option<Phys>, next: Next)
    | Check(from: Option<Phys>, to: Option<Virt>, next: Next)
    | Probe(phys: Phys, virt: Virt, next: Next)
    | Waiting(virt: Virt, next: Next)
    | Done(result: Result)

  /** `start` and `startIndex` are the cursor the current call was given; `sets` counts how often the promise was set.
      `here`, `off` and `want` are history: the trie node the request is about, where it sits, and the outcome the
      lookup must have. */
  datatype Req = Req(version: Version, ioThread: bool, pc: Pc, start: Option<Flat>, startIndex: nat, sets: nat,
                     known: bool, here: Node, off: Phys, want: Outcome)

  datatype Read = Read(phys: Phys, virt: Virt, buf: Option<Flat>)

  datatype State = State(w: World, cache: map<Virt, Flat>, inflight: map<Virt, seq<nat>>, outstanding: seq<Read>,
                         reqs: seq<Req>)

  // ---------------------------------------------------------------- one request

  /** Match the rest of a node's path, then end or pick the child to go to. */
  function Match(n: Flat, i: nat, key: Key): Pc
    requires i <= |n.path|
    decreases |n.path| - i
  {
    if i < |n.path| then
      if key == [] then Done(Result(KeyEndsEarlier, Some(n), i))
      else if key[0] != n.path[i] then Done(Result(KeyMismatch, Some(n), i))
      else Match(n, i + 1, key[1..])
    else if key == [] then Done(Result(Success, Some(n), i))
    else if key[0] in n.kids then ToVirtual(Some(n.kids[key[0]].0), Continue(key[1..]))
    else Done(Result(BranchNotExist, Some(n), i))
  }

  /** The branch `Match` leaves a node by. */
  function Branch(n: Node, i: nat, key: Key): Option<Nibble>
    requires i <= |n.path|
    decreases |n.path| - i
  {
    if i < |n.path| then if key != [] && key[0] == n.path[i] then Branch(n, i + 1, key[1..]) else None
    else if key != [] && key[0] in n.kids then Some(key[0]) else None
  }

  /** Setting the promise. */
  function Finish(r: Req, result: Result): Req {
    r.(pc := Done(result), sets := r.sets + 1)
  }

  function Goto(r: Req, pc: Pc): Req {
    if pc.Done? then Finish(r, pc.result) else r.(pc := pc)
  }

  /** The node arrived, from the cache or from a read. */
  function Arrive(r: Req, n: Flat, next: Next): Req {
    match next
    case LoadRoot => Finish(r, Result(Success, Some(n), 0))
    case Continue(key) => r.(pc := Visit(Some(n), 0, key), start := Some(n), startIndex := 0)
  }

  /** Steps that only look at the metadata. */
  function Advance(w: World, r: Req): Req
    requires r.pc.Visit? || r.pc.ReadRoot? || r.pc.ToVirtual? || r.pc.Check?
    requires r.pc.Visit? && r.pc.node.Some? ==> r.pc.i <= |r.pc.node.value.path|
  {
    match r.pc
    case Visit(node, i, key) =>
      if r.version !in w.live then Finish(r, Result(VersionGone, node, i))
      else if node == None then Finish(r, Result(RootNull, None, 0))
      else
        var r' := if i <= |r.here.path| then
                    match Branch(r.here, i, key)
                    case Some(b) => if b in r.here.kids
                      then r.(here := r.here.kids[b].node, off := r.here.kids[b].offset) else r
                    case None => r
                  else r;
        Goto(r', Match(node.value, i, key))
    case ReadRoot =>
      if r.version in w.live && r.version in w.roots && r.version in w.tries then
        r.(pc := ToVirtual(Some(w.roots[r.version]), LoadRoot), here := w.tries[r.version], off := w.roots[r.version],
           want := Outcome(Success, w.tries[r.version], 0))
      else r.(pc := ToVirtual(None, LoadRoot))
    case ToVirtual(from, next) =>
      r.(pc := Check(from, if from == None then None else Translate(w, from.value), next))
    case Check(from, to, next) =>
      if r.version !in w.live || from == None || to == None then
        Finish(r, if next.LoadRoot? then Result(VersionGone, None, 0) else Result(VersionGone, r.start, r.startIndex))
      else r.(pc := Probe(from.value, to.value, next))
  }

  // ---------------------------------------------------------------- the shared tables

  /** The cache lookup and, on a miss, joining or starting the read: one piece of work of the I/O thread. */
  function DoProbe(s: State, q: nat): State
    requires q < |s.reqs| && s.reqs[q].pc.Probe?
  {
    var r := s.reqs[q];
    var Probe(phys, v, next) := r.pc;
    if v in s.cache then s.(reqs := s.reqs[q := Arrive(r, s.cache[v], next)])
    else if !r.ioThread then s.(reqs := s.reqs[q := Finish(r, Result(NeedIoThread, None, 0))])
    else
      var reqs := s.reqs[q := r.(pc := Waiting(v, next))];
      if v in s.inflight then s.(reqs := reqs, inflight := s.inflight[v := s.inflight[v] + [q]])
      else s.(reqs := reqs, inflight := s.inflight[v := [q]], outstanding := s.outstanding + [Read(phys, v, None)])
  }

  /** A continuation runs with the node read, or with nothing. */
  function Wake(r: Req, n: Option<Flat>): Req {
    if !r.pc.Waiting? || n == None then Finish(r, Result(VersionGone, None, 0)) else Arrive(r, n.value, r.pc.next)
  }

  function WakeAll(reqs: seq<Req>, pend: seq<nat>, n: Option<Flat>): (out: seq<Req>)
    requires forall k :: 0 <= k < |pend| ==> pend[k] < |reqs|
    ensures |out| == |reqs|
    decreases |pend|
  {
    if pend == [] then reqs else WakeAll(reqs[pend[0] := Wake(reqs[pend[0]], n)], pend[1..], n)
  }

  /** A read completes: the offset is translated again, the node is cached if it still is where it was, and every
      pending request continues. */
  function DoComplete(s: State, j: nat): State
    requires j < |s.outstanding| && s.outstanding[j].buf.Some? && s.outstanding[j].virt in s.inflight
    requires forall k :: 0 <= k < |s.inflight[s.outstanding[j].virt]| ==>
             s.inflight[s.outstanding[j].virt][k] < |s.reqs|
  {
    var Read(phys, v, buf) := s.outstanding[j];
    var same := Translate(s.w, phys) == Some(v);
    State(s.w, if same then s.cache[v := buf.value] else s.cache, s.inflight - {v},
          s.outstanding[..j] + s.outstanding[j + 1..],
          WakeAll(s.reqs, s.inflight[v], if same then buf else None))
  }

  // ---------------------------------------------------------------- steps and runs

  datatype Step =
    | Writer(w: World)
    | Evict(virt: Virt)
    | NewFind(version: Version, ioThread: bool, start: Option<Node>, off: Phys, i: nat, key: Key)
    | NewLoad(version: Version, ioThread: bool)
    | Run(q: nat)
    | Fetch(j: nat, n: Flat)
    | Complete(j: nat)

  /** A new request is about an existing version's trie; a read that is still in place returns what is there. */
  ghost predicate Enabled(s: State, step: Step) {
    match step
    case Writer(w) => WriterStep(s.w, w)
    case Evict(v) => true
    case NewFind(x, _, start, off, i, key) =>
      start.Some? ==>
        && x in s.w.tries && x in s.w.roots && Sits(s.w.tries[x], s.w.roots[x], start.value, off)
        && i <= |start.value.path|
    case NewLoad(x, _) => true
    case Run(q) =>
      && q < |s.reqs| && !s.reqs[q].pc.Waiting? && !s.reqs[q].pc.Done?
      && (s.reqs[q].pc.Visit? && s.reqs[q].pc.node.Some? ==> s.reqs[q].pc.i <= |s.reqs[q].pc.node.value.path|)
    case Fetch(j, n) =>
      && j < |s.outstanding| && s.outstanding[j].buf == None
      && (Translate(s.w, s.outstanding[j].phys) == Some(s.outstanding[j].virt) ==>
            s.outstanding[j].phys in s.w.content && n == s.w.content[s.outstanding[j].phys])
    case Complete(j) =>
      && j < |s.outstanding| && s.outstanding[j].buf.Some? && s.outstanding[j].virt in s.inflight
      && forall k :: 0 <= k < |s.inflight[s.outstanding[j].virt]| ==> s.inflight[s.outstanding[j].virt][k] < |s.reqs|
  }

  const NOWHERE := Node([], None, 0, map[])

  ghost function Do(s: State, step: Step): State
    requires Enabled(s, step)
  {
    match step
    case Writer(w) => s.(w := w)
    case Evict(v) => s.(cache := s.cache - {v})
    case NewFind(x, io, start, off, i, key) =>
      var here := if start.Some? then start.value else NOWHERE;
      var want := if start.Some? then Find(start.value, i, key) else Outcome(RootNull, NOWHERE, 0);
      var node := if start.Some? then Some(Flatten(start.value)) else None;
      s.(reqs := s.reqs + [Req(x, io, Visit(node, i, key), node, i, 0, start.Some?, here, off, want)])
    case NewLoad(x, io) =>
      s.(reqs := s.reqs + [Req(x, io, ReadRoot, None, 0, 0, x in s.w.tries, NOWHERE, 0, Outcome(Success, NOWHERE, 0))])
    case Run(q) =>
      if s.reqs[q].pc.Probe? then DoProbe(s, q) else s.(reqs := s.reqs[q := Advance(s.w, s.reqs[q])])
    case Fetch(j, n) => s.(outstanding := s.outstanding[j := s.outstanding[j].(buf := Some(n))])
    case Complete(j) => DoComplete(s, j)
  }

  function Init(w: World): State {
    State(w, map[], map[], [], [])
  }

  ghost predicate Legal(s: State, steps: seq<Step>)
    decreases |steps|
  {
    steps == [] || (Enabled(s, steps[0]) && Legal(Do(s, steps[0]), steps[1..]))
  }

  ghost function After(s: State, steps: seq<Step>): State
    requires Legal(s, steps)
    decreases |steps|
  {
    if steps == [] then s else After(Do(s, steps[0]), steps[1..])
  }
}
