/**
 Copying a subtrie: the source subtrie is grafted under a prefix of the destination trie.
 The descent either replaces a node, splits a node path or adds a branch; the nodes on the
 way are then rewritten bottom-up, each to a new place on disk.
 */
module CopyTrie {
  import opened Trie

  // ---------------------------------------------------------------- least versions

  function Min(a: int, b: int): int {
    if a < b then a else b
  }

  /** The version of a node and the recorded minima of its first `i` branches. */
  function MinUpTo(n: Node, i: nat): int
    requires i <= 16
  {
    if i == 0 then n.version
    else if i - 1 in n.kids then Min(MinUpTo(n, i - 1), n.kids[i - 1].minVersion) else MinUpTo(n, i - 1)
  }

  function CalcMinVersion(n: Node): int {
    MinUpTo(n, 16)
  }

  ghost predicate InSubtrie(n: Node, x: Node) {
    x == n || exists b :: b in n.kids && InSubtrie(n.kids[b].node, x)
  }

  /** The version is attained in the subtrie and no node of it is older. */
  ghost predicate LeastVersion(n: Node, v: int) {
    && (exists x :: InSubtrie(n, x) && x.version == v)
    && (forall x :: InSubtrie(n, x) ==> v <= x.version)
  }

  ghost predicate MinsRight(n: Node) {
    forall b :: b in n.kids ==> LeastVersion(n.kids[b].node, n.kids[b].minVersion) && MinsRight(n.kids[b].node)
  }

  lemma {:induction false} MinUpToBounds(n: Node, i: nat)
    requires i <= 16
    ensures MinUpTo(n, i) <= n.version
    ensures forall b: Nibble :: b < i && b in n.kids ==> MinUpTo(n, i) <= n.kids[b].minVersion
    ensures || MinUpTo(n, i) == n.version
            || exists b: Nibble :: b < i && b in n.kids && MinUpTo(n, i) == n.kids[b].minVersion
  {
    if i != 0 {
      MinUpToBounds(n, i - 1);
    }
  }

  /** The minimum over the recorded values is the least version of the whole subtrie. */
  lemma CalcMinVersionRight(n: Node)
    requires MinsRight(n)
    ensures LeastVersion(n, CalcMinVersion(n))
  {
    var v := CalcMinVersion(n);
    MinUpToBounds(n, 16);
    if v == n.version {
      assert InSubtrie(n, n);
    } else {
      var b: Nibble :| b < 16 && b in n.kids && v == n.kids[b].minVersion;
      var x :| InSubtrie(n.kids[b].node, x) && x.version == v;
      assert InSubtrie(n, x);
    }
    forall x | InSubtrie(n, x) ensures v <= x.version {
      if x != n {
        var b :| b in n.kids && InSubtrie(n.kids[b].node, x);
        assert v <= n.kids[b].minVersion;
      }
    }
  }

  // ---------------------------------------------------------------- writing nodes

  lemma {:induction false} OnDiskGrows(disk: Store, disk': Store, n: Node)
    requires OnDisk(disk, n) && disk <= disk'
    ensures OnDisk(disk', n)
  {
    forall b | b in n.kids
      ensures n.kids[b].offset < |disk'| && disk'[n.kids[b].offset] == Flatten(n.kids[b].node)
              && OnDisk(disk', n.kids[b].node)
    {
      OnDiskGrows(disk, disk', n.kids[b].node);
    }
  }

  /** A node that may become a child: all below it is on disk with the right minima. */
  ghost predicate Settled(disk: Store, n: Node) {
    OnDisk(disk, n) && MinsRight(n)
  }

  /** A child record for a node just written at the end of the disk. */
  function Written(disk: Store, n: Node): Kid {
    Kid(n, |disk|, CalcMinVersion(n))
  }

  ghost predicate GoodKid(disk: Store, k: Kid) {
    && k.offset < |disk| && disk[k.offset] == Flatten(k.node) && Settled(disk, k.node)
    && LeastVersion(k.node, k.minVersion)
  }

  lemma SettledIff(disk: Store, n: Node)
    ensures Settled(disk, n) <==> forall b :: b in n.kids ==> GoodKid(disk, n.kids[b])
  {
  }

  lemma WriteKid(disk: Store, n: Node)
    requires Settled(disk, n)
    ensures GoodKid(disk + [Flatten(n)], Written(disk, n))
  {
    CalcMinVersionRight(n);
    OnDiskGrows(disk, disk + [Flatten(n)], n);
  }

  lemma KidGrows(disk: Store, disk': Store, k: Kid)
    requires GoodKid(disk, k) && disk <= disk'
    ensures GoodKid(disk', k)
  {
    OnDiskGrows(disk, disk', k.node);
  }

  lemma SettledGrows(disk: Store, disk': Store, n: Node)
    requires Settled(disk, n) && disk <= disk'
    ensures Settled(disk', n)
  {
    OnDiskGrows(disk, disk', n);
  }

  lemma SettledClone(disk: Store, c: Node, n: Node)
    requires Settled(disk, n) && c.kids == n.kids
    ensures Settled(disk, c)
  {
  }

  // ---------------------------------------------------------------- grafting

  /** The node above the graft, when one is made or extended: where it ends in the prefix, and what it carries. */
  datatype Join = Join(len: nat, info: Info)

  function Shifted(join: Option<Join>, n: nat): Option<Join> {
    if join == None then None else Some(Join(n + join.value.len, join.value.info))
  }

  predicate JoinsAt(pre: Key, join: Option<Join>, key: Key) {
    join.Some? && join.value.len <= |pre| && key == pre[..join.value.len]
  }

  /** What the new node has at `key`: the join, below `pre` the source subtrie, and elsewhere what the old node had. */
  predicate GraftedAt(n': Node, n: Node, pre: Key, src: Node, join: Option<Join>, key: Key) {
    Look(n', key) == if JoinsAt(pre, join, key) then Some(join.value.info)
                     else if pre <= key then LookBelow(src, key[|pre|..]) else Look(n, key)
  }

  ghost predicate Grafted(n': Node, n: Node, pre: Key, src: Node, join: Option<Join>) {
    forall key :: GraftedAt(n', n, pre, src, join, key)
  }

  lemma PrefixSplit(a: Key, b: Nibble, c: Key, key: Key)
    ensures a + [b] + c <= key <==> a <= key && |a| < |key| && key[|a|] == b && c <= key[|a| + 1..]
    ensures a + [b] + c <= key ==> key[|a + [b] + c|..] == key[|a| + 1..][|c|..]
  {
    var abc := a + [b] + c;
    assert abc[..|a|] == a && abc[|a|] == b && abc[|a| + 1..] == c;
    if a <= key && |a| < |key| && key[|a|] == b && c <= key[|a| + 1..] {
      assert key == key[..|a|] + [key[|a|]] + key[|a| + 1..];
    }
    if abc <= key {
      assert key[..|abc|] == abc;
    }
  }

  /** Replacing a whole node. */
  lemma ReplaceGrafts(n: Node, src: Node, version: int)
    ensures Grafted(Node(n.path, src.value, version, src.kids), n, n.path, src.(version := version), None)
  {
    var n' := Node(n.path, src.value, version, src.kids);
    forall key ensures GraftedAt(n', n, n.path, src.(version := version), None, key) {
      LookSplits(n', key);
      LookSplits(n, key);
    }
  }

  /** Reading through a node: its own key, through a branch, or nothing. */
  lemma ReadThrough(n: Node, key: Key)
    ensures Look(n, key) ==
            if !(n.path <= key) then None
            else if key == n.path then Some(Info(n.value, n.version))
            else if key[|n.path|] in n.kids then Look(n.kids[key[|n.path|]].node, key[|n.path| + 1..]) else None
  {
    LookSplits(n, key);
    if n.path <= key && key != n.path {
      assert key[|n.path|..][1..] == key[|n.path| + 1..];
    }
  }

  /** A node with the value, version and children of `src` reads like `src` below its own path. */
  lemma CloneReads(c: Node, src: Node, key: Key)
    requires c.value == src.value && c.version == src.version && c.kids == src.kids
    ensures Look(c, key) == if c.path <= key then LookBelow(src, key[|c.path|..]) else None
  {
    LookSplits(c, key);
  }

  /** Adding a branch to a node that lacks it. */
  lemma AddGrafts(n: Node, b: Nibble, rest: Key, src: Node, value: Option<Value>, version: int, off: Offset, mv: int)
    requires b !in n.kids
    ensures var child := Node(rest, src.value, src.version, src.kids);
            Grafted(Node(n.path, value, version, n.kids[b := Kid(child, off, mv)]), n, n.path + [b] + rest, src,
                    Some(Join(|n.path|, Info(value, version))))
  {
    var child := Node(rest, src.value, src.version, src.kids);
    var n' := Node(n.path, value, version, n.kids[b := Kid(child, off, mv)]);
    var pre, join := n.path + [b] + rest, Some(Join(|n.path|, Info(value, version)));
    forall key ensures GraftedAt(n', n, pre, src, join, key) {
      AddReads(n, b, rest, src, n', child, key);
      assert pre[..|n.path|] == n.path;
    }
  }

  lemma AddReads(n: Node, b: Nibble, rest: Key, src: Node, n': Node, child: Node, key: Key)
    requires b !in n.kids && child == Node(rest, src.value, src.version, src.kids)
    requires n'.path == n.path && b in n'.kids && n'.kids[b].node == child && n'.kids == n.kids[b := n'.kids[b]]
    ensures var pre := n.path + [b] + rest;
            Look(n', key) == if key == n.path then Some(Info(n'.value, n'.version))
                             else if pre <= key then LookBelow(src, key[|pre|..]) else Look(n, key)
  {
    PrefixSplit(n.path, b, rest, key);
    ReadThrough(n', key);
    ReadThrough(n, key);
    if n.path <= key && |n.path| < |key| && key[|n.path|] == b {
      CloneReads(child, src, key[|n.path| + 1..]);
    }
  }

  /** Splitting a node path at its nibble `i`. */
  lemma SplitGrafts(n: Node, i: nat, b: Nibble, rest: Key, src: Node, value: Option<Value>, version: int,
                    k0: Kid, k1: Kid)
    requires i < |n.path| && b != n.path[i]
    requires k0.node == Node(rest, src.value, src.version, src.kids)
    requires k1.node == Node(n.path[i + 1..], n.value, n.version, n.kids)
    ensures Grafted(Node(n.path[..i], value, version, map[b := k0, n.path[i] := k1]), n, n.path[..i] + [b] + rest, src,
                    Some(Join(i, Info(value, version))))
  {
    var n' := Node(n.path[..i], value, version, map[b := k0, n.path[i] := k1]);
    var pre, join := n.path[..i] + [b] + rest, Some(Join(i, Info(value, version)));
    forall key ensures GraftedAt(n', n, pre, src, join, key) {
      SplitReads(n, i, b, rest, src, n', k0, k1, key);
      assert pre[..i] == n.path[..i];
    }
  }

  lemma SplitReads(n: Node, i: nat, b: Nibble, rest: Key, src: Node, n': Node, k0: Kid, k1: Kid, key: Key)
    requires i < |n.path| && b != n.path[i]
    requires k0.node == Node(rest, src.value, src.version, src.kids)
    requires k1.node == Node(n.path[i + 1..], n.value, n.version, n.kids)
    requires n'.path == n.path[..i] && n'.kids == map[b := k0, n.path[i] := k1]
    ensures var pre := n.path[..i] + [b] + rest;
            Look(n', key) == if key == n.path[..i] then Some(Info(n'.value, n'.version))
                             else if pre <= key then LookBelow(src, key[|pre|..]) else Look(n, key)
  {
    PrefixSplit(n.path[..i], b, rest, key);
    assert n.path == n.path[..i] + [n.path[i]] + n.path[i + 1..];
    PrefixSplit(n.path[..i], n.path[i], n.path[i + 1..], key);
    ReadThrough(n', key);
    CloneReads(n, n, key);
    if n'.path <= key && |n'.path| < |key| {
      CloneReads(k0.node, src, key[i + 1..]);
      CloneReads(k1.node, n, key[i + 1..]);
    }
  }

  /** Carrying a graft over to the parent. */
  lemma ParentGrafts(p: Node, b: Nibble, k': Kid, pre: Key, src: Node, join: Option<Join>)
    requires b in p.kids && Grafted(k'.node, p.kids[b].node, pre, src, join)
    ensures Grafted(p.(kids := p.kids[b := k']), p, p.path + [b] + pre, src, Shifted(join, |p.path| + 1))
  {
    var p', all, up := p.(kids := p.kids[b := k']), p.path + [b] + pre, Shifted(join, |p.path| + 1);
    forall key ensures GraftedAt(p', p, all, src, up, key) {
      if p.path <= key && |p.path| < |key| {
        assert GraftedAt(k'.node, p.kids[b].node, pre, src, join, key[|p.path| + 1..]);
      }
      ParentReads(p, b, k', pre, src, join, key);
    }
  }

  lemma JoinShifts(path: Key, b: Nibble, pre: Key, join: Option<Join>, key: Key)
    ensures JoinsAt(path + [b] + pre, Shifted(join, |path| + 1), key) <==>
            path <= key && |path| < |key| && key[|path|] == b && JoinsAt(pre, join, key[|path| + 1..])
  {
    if join.Some? && join.value.len <= |pre| {
      var part := pre[..join.value.len];
      assert (path + [b] + pre)[..|path| + 1 + join.value.len] == path + [b] + part;
      if key == path + [b] + part {
        assert key[..|path|] == path && key[|path|] == b && key[|path| + 1..] == part;
      }
      if path <= key && |path| < |key| && key[|path|] == b && key[|path| + 1..] == part {
        assert key == key[..|path|] + [key[|path|]] + key[|path| + 1..];
      }
    }
  }

  lemma ParentReads(p: Node, b: Nibble, k': Kid, pre: Key, src: Node, join: Option<Join>, key: Key)
    requires b in p.kids
    requires p.path <= key && |p.path| < |key| ==>
               GraftedAt(k'.node, p.kids[b].node, pre, src, join, key[|p.path| + 1..])
    ensures GraftedAt(p.(kids := p.kids[b := k']), p, p.path + [b] + pre, src, Shifted(join, |p.path| + 1), key)
  {
    PrefixSplit(p.path, b, pre, key);
    JoinShifts(p.path, b, pre, join, key);
    ReadThrough(p.(kids := p.kids[b := k']), key);
    ReadThrough(p, key);
  }

  // ---------------------------------------------------------------- building nodes

  method SubtrieMinVersion(n: Node) returns (v: int)
    ensures v == CalcMinVersion(n)
  {
    v := n.version;
    for i := 0 to 16
      invariant v == MinUpTo(n, i)
    {
      if i in n.kids {
        v := Min(v, n.kids[i].minVersion);
      }
    }
  }

  /** Write a node at the end of the disk and describe it to its parent. */
  method WriteChild(disk: Store, n: Node) returns (k: Kid, disk': Store)
    ensures k == Written(disk, n) && disk' == disk + [Flatten(n)]
    ensures Settled(disk, n) ==> GoodKid(disk', k)
  {
    var v := SubtrieMinVersion(n);
    k, disk' := Kid(n, |disk|, v), disk + [Flatten(n)];
    if Settled(disk, n) {
      WriteKid(disk, n);
    }
  }

  method CreateNodeAddNewBranch(disk: Store, node: Node, newBranch: Nibble, child: Node, version: int,
                                value: Option<Value>)
    returns (n: Node, disk': Store)
    requires newBranch !in node.kids
    ensures n == Node(node.path, value, version, node.kids[newBranch := Written(disk, child)])
    ensures disk' == disk + [Flatten(child)]
  {
    var kids: map<Nibble, Kid> := map[];
    disk' := disk;
    for i := 0 to 16
      invariant disk' == if newBranch < i then disk + [Flatten(child)] else disk
      invariant forall b: Nibble :: b in kids <==> b < i && b in node.kids[newBranch := Written(disk, child)]
      invariant forall b: Nibble :: b in kids ==> kids[b] == node.kids[newBranch := Written(disk, child)][b]
    {
      if i == newBranch {
        var k;
        k, disk' := WriteChild(disk', child);
        kids := kids[i := k];
      } else if i in node.kids {
        kids := kids[i := node.kids[i]];
      }
    }
    assert kids == node.kids[newBranch := Written(disk, child)];
    n := Node(node.path, value, version, kids);
  }

  method CreateNodeWithTwoChildren(disk: Store, path: Key, branch0: Nibble, child0: Node, branch1: Nibble, child1: Node,
                                   version: int, value: Option<Value>)
    returns (n: Node, disk': Store)
    requires branch0 != branch1
    ensures disk' == disk + [Flatten(child0)] + [Flatten(child1)]
    ensures n == Node(path, value, version,
                      map[branch0 := Written(disk, child0), branch1 := Written(disk + [Flatten(child0)], child1)])
  {
    var k0, k1;
    k0, disk' := WriteChild(disk, child0);
    k1, disk' := WriteChild(disk', child1);
    n := Node(path, value, version, map[branch0 := k0, branch1 := k1]);
  }

  lemma AddSettles(disk: Store, n: Node, b: Nibble, child: Node, m: Node)
    requires Settled(disk, n) && Settled(disk, child)
    requires m.kids == n.kids[b := Written(disk, child)]
    ensures Settled(disk + [Flatten(child)], m)
  {
    var disk' := disk + [Flatten(child)];
    WriteKid(disk, child);
    forall b' | b' in m.kids ensures GoodKid(disk', m.kids[b']) {
      if b' != b {
        KidGrows(disk, disk', n.kids[b']);
      }
    }
    SettledIff(disk', m);
  }

  lemma TwoSettle(disk: Store, b0: Nibble, child0: Node, b1: Nibble, child1: Node, n: Node)
    requires Settled(disk, child0) && Settled(disk, child1)
    requires n.kids == map[b0 := Written(disk, child0), b1 := Written(disk + [Flatten(child0)], child1)]
    ensures Settled(disk + [Flatten(child0)] + [Flatten(child1)], n)
  {
    var disk1 := disk + [Flatten(child0)];
    var disk2 := disk1 + [Flatten(child1)];
    WriteKid(disk, child0);
    SettledGrows(disk, disk1, child1);
    WriteKid(disk1, child1);
    KidGrows(disk1, disk2, Written(disk, child0));
    SettledIff(disk2, n);
  }

  // ---------------------------------------------------------------- the copy

  datatype Copied = Aborted | Copied(root: Node, disk: Store)

  /** The descent stops inside the root node: its path is split or it gets a new branch. */
  predicate StopsAtRoot(d: Node, prefix: Key) {
    prefix != d.path && !(d.path <= prefix && prefix[|d.path|] in d.kids)
  }

  /** When one of the copy's assertions fails. */
  predicate Aborts(srcRoot: Node, srcPrefix: Key, dest: Option<Node>, prefix: Key) {
    || Find(srcRoot, 0, srcPrefix).code != Success
    || (if dest == None then prefix == [] || srcRoot.value == None
        else || Find(dest.value, 0, prefix).code == KeyEndsEarlier
             || (StopsAtRoot(dest.value, prefix) && srcRoot.value == None))
  }

  /** The stretch of `prefix` at `i` is the path of `p`, the branch `b`, and the rest at `j`. */
  predicate Link(prefix: Key, p: Node, i: nat, b: Nibble, c: Node, j: nat) {
    && i <= j <= |prefix| && b in p.kids && c == p.kids[b].node
    && prefix[i..] == p.path + [b] + prefix[j..]
  }

  /** The nodes passed so far, the branches taken from them, and where in the prefix each begins. */
  predicate Trail(prefix: Key, root: Node, path: seq<Node>, stack: seq<(nat, Nibble)>, pos: seq<nat>) {
    && |path| == |pos| == |stack| + 1 && path[0] == root && pos[0] == 0
    && (forall t :: 0 <= t < |pos| ==> pos[t] <= |prefix|)
    && (forall t :: 0 <= t < |stack| ==> stack[t].0 == t)
    && (forall t :: 0 <= t < |stack| ==> Link(prefix, path[t], pos[t], stack[t].1, path[t + 1], pos[t + 1]))
  }

  /** Every node on the trail is settled when the root is. */
  lemma {:induction false} TrailSettled(disk: Store, prefix: Key, root: Node, path: seq<Node>,
                                        stack: seq<(nat, Nibble)>, pos: seq<nat>, t: nat)
    requires Trail(prefix, root, path, stack, pos) && Settled(disk, root) && t < |path|
    ensures Settled(disk, path[t])
  {
    if t > 0 {
      var i := t - 1;
      TrailSettled(disk, prefix, root, path, stack, pos, i);
      assert Link(prefix, path[i], pos[i], stack[i].1, path[i + 1], pos[i + 1]);
      KidSettled(disk, path[i], stack[i].1);
    }
  }

  lemma KidSettled(disk: Store, n: Node, b: Nibble)
    requires Settled(disk, n) && b in n.kids
    ensures Settled(disk, n.kids[b].node)
  {
  }

  /** Same node but for the child at one branch. */
  predicate SameBut(p': Node, p: Node, b: Nibble) {
    p'.path == p.path && p'.value == p.value && p'.version == p.version && p'.kids - {b} == p.kids - {b}
  }

  lemma SameButPut(p': Node, p: Node, b: Nibble, k: Kid)
    requires SameBut(p', p, b)
    ensures p'.(kids := p'.kids[b := k]) == p.(kids := p.kids[b := k])
  {
    forall x | x != b ensures (x in p'.kids <==> x in p.kids) && (x in p.kids ==> p'.kids[x] == p.kids[x]) {
      assert x in p'.kids - {b} <==> x in p.kids - {b};
      if x in p.kids {
        assert (p'.kids - {b})[x] == (p.kids - {b})[x];
      }
    }
    assert p'.kids[b := k] == p.kids[b := k];
  }

  /** The join as seen from position `i` of the prefix. */
  function From(join: Option<Join>, i: nat): Option<Join> {
    if join == None then None else Some(Join(if i <= join.value.len then join.value.len - i else 0, join.value.info))
  }

  lemma Rejoin(disk: Store, prefix: Key, p: Node, i: nat, b: Nibble, c: Node, j: nat, c': Node, src: Node,
               join: Option<Join>)
    requires Link(prefix, p, i, b, c, j) && Settled(disk, p) && (join.Some? ==> j <= join.value.len)
    requires Settled(disk, c') && Grafted(c', c, prefix[j..], src, From(join, j))
    ensures var n := p.(kids := p.kids[b := Written(disk, c')]);
            Settled(disk + [Flatten(c')], n) && Grafted(n, p, prefix[i..], src, From(join, i))
  {
    var k := Written(disk, c');
    ParentGrafts(p, b, k, prefix[j..], src, From(join, j));
    assert |prefix[i..]| == |p.path| + 1 + |prefix[j..]|;
    AddSettles(disk, p, b, c', p.(kids := p.kids[b := k]));
  }

  /** The state of the bottom-up loop: node `top` and all below it are final. */
  ghost predicate Rewritten(disk: Store, prefix: Key, path0: seq<Node>, stack0: seq<(nat, Nibble)>, pos: seq<nat>,
                            src: Node, join: Option<Join>,
                            path: seq<Node>, top: nat)
    requires top < |path| == |path0| == |pos| == |stack0| + 1 && pos[top] <= |prefix|
  {
    && Settled(disk, path[top]) && Grafted(path[top], path0[top], prefix[pos[top]..], src, From(join, pos[top]))
    && (join.Some? ==> pos[top] <= join.value.len)
    && forall t :: 0 <= t <= top && t < |stack0| ==> SameBut(path[t], path0[t], stack0[t].1)
  }

  lemma RewriteStep(disk0: Store, disk: Store, prefix: Key, root: Node, path0: seq<Node>, stack0: seq<(nat, Nibble)>,
                    pos: seq<nat>,
                    src: Node, join: Option<Join>, path: seq<Node>, t: nat)
    requires Trail(prefix, root, path0, stack0, pos) && Settled(disk0, root) && disk0 <= disk && |path| == |path0|
    requires t < |stack0| && Rewritten(disk, prefix, path0, stack0, pos, src, join, path, t + 1)
    ensures var b := stack0[t].1;
            var disk' := disk + [Flatten(path[t + 1])];
            var path' := path[t := path[t].(kids := path[t].kids[b := Written(disk, path[t + 1])])];
            && Rewritten(disk', prefix, path0, stack0, pos, src, join, path', t)
            && Rewritten(disk', prefix, path0, stack0, pos, src, join, path', t + 1)
  {
    var b := stack0[t].1;
    SettledGrows(disk0, disk, root);
    TrailSettled(disk, prefix, root, path0, stack0, pos, t);
    SettledGrows(disk, disk + [Flatten(path[t + 1])], path[t + 1]);
    Rejoin(disk, prefix, path0[t], pos[t], b, path0[t + 1], pos[t + 1], path[t + 1], src, join);
    SameButPut(path[t], path0[t], b, Written(disk, path[t + 1]));
  }

  /** The bottom-up loop with its stack, whose last entry is there twice. */
  ghost predicate Rewriting(disk0: Store, disk: Store, prefix: Key, root: Node, path0: seq<Node>,
                            stack0: seq<(nat, Nibble)>, pos: seq<nat>,
                            src: Node, join: Option<Join>, path: seq<Node>, stack: seq<(nat, Nibble)>)
  {
    && Trail(prefix, root, path0, stack0, pos) && Settled(disk0, root) && stack0 != [] && disk0 <= disk
    && |path| == |path0|
    && stack <= stack0 + [stack0[|stack0| - 1]]
    && Rewritten(disk, prefix, path0, stack0, pos, src, join, path, if |stack| <= |stack0| then |stack| else |stack0|)
  }

  lemma RewriteNext(disk0: Store, disk: Store, prefix: Key, root: Node, path0: seq<Node>, stack0: seq<(nat, Nibble)>,
                    pos: seq<nat>,
                    src: Node, join: Option<Join>, path: seq<Node>, stack: seq<(nat, Nibble)>)
    requires Rewriting(disk0, disk, prefix, root, path0, stack0, pos, src, join, path, stack) && stack != []
    ensures var (t, b) := stack[|stack| - 1];
            && t + 1 < |path|
            && var path' := path[t := path[t].(kids := path[t].kids[b := Written(disk, path[t + 1])])];
            Rewriting(disk0, disk + [Flatten(path[t + 1])], prefix, root, path0, stack0, pos, src, join, path',
                      stack[..|stack| - 1])
  {
    var (t, b) := stack[|stack| - 1];
    assert stack[|stack| - 1] == (stack0 + [stack0[|stack0| - 1]])[|stack| - 1];
    RewriteStep(disk0, disk, prefix, root, path0, stack0, pos, src, join, path, t);
  }

  /** The bottom-up loop: rewrite every node from the replaced one to the child of the root. */
  method RewriteAncestors(disk0: Store, prefix: Key, root: Node, path0: seq<Node>, stack0: seq<(nat, Nibble)>,
                          newNode: Node,
                          ghost pos: seq<nat>, ghost src: Node, ghost join: Option<Join>)
    returns (root': Node, disk: Store)
    requires Trail(prefix, root, path0, stack0, pos) && stack0 != [] && Settled(disk0, root)
    requires Settled(disk0, newNode)
    requires Grafted(newNode, path0[|stack0|], prefix[pos[|stack0|]..], src, From(join, pos[|stack0|]))
    requires join.Some? ==> pos[|stack0|] <= join.value.len
    ensures disk0 <= disk && Settled(disk, root') && Grafted(root', root, prefix, src, join)
    ensures root'.value == root.value && root'.path == root.path
  {
    var path := path0[|stack0| := newNode];
    var stack := stack0 + [stack0[|stack0| - 1]];
    disk := disk0;
    while stack != []
      invariant Rewriting(disk0, disk, prefix, root, path0, stack0, pos, src, join, path, stack)
    {
      RewriteNext(disk0, disk, prefix, root, path0, stack0, pos, src, join, path, stack);
      var (t, b) := stack[|stack| - 1];
      var k;
      k, disk := WriteChild(disk, path[t + 1]);
      path := path[t := path[t].(kids := path[t].kids[b := k])];
      stack := stack[..|stack| - 1];
    }
    root' := path[0];
    assert prefix[0..] == prefix;
  }

  /** Where the descent is: at a node whose path begins at `start` in the prefix, with `inNode` nibbles of that
      path matched. */
  predicate Here(prefix: Key, root: Node, node: Node, start: nat, index: nat, inNode: nat, moved: bool) {
    && inNode <= |node.path| && index == start + inNode <= |prefix|
    && prefix[start..index] == node.path[..inNode]
    && Find(root, 0, prefix) == Find(node, inNode, prefix[index..])
    && Followed(root, 0, prefix) == index + Followed(node, inNode, prefix[index..])
    && (if moved then !StopsAtRoot(root, prefix) else node == root && start == 0)
  }

  lemma HereStart(prefix: Key, root: Node)
    ensures Here(prefix, root, root, 0, 0, 0, false)
    ensures Trail(prefix, root, [root], [], [0])
  {
    assert prefix[0..] == prefix;
  }

  lemma HereMatch(prefix: Key, root: Node, node: Node, start: nat, index: nat, inNode: nat, moved: bool)
    requires Here(prefix, root, node, start, index, inNode, moved)
    requires index < |prefix| && inNode < |node.path| && prefix[index] == node.path[inNode]
    ensures Here(prefix, root, node, start, index + 1, inNode + 1, moved)
  {
    assert prefix[index..][1..] == prefix[index + 1..];
    assert prefix[start..index + 1] == prefix[start..index] + [prefix[index]];
  }

  lemma HereBranch(prefix: Key, root: Node, node: Node, start: nat, index: nat, moved: bool, next: Node)
    requires Here(prefix, root, node, start, index, |node.path|, moved)
    requires index < |prefix| && prefix[index] in node.kids && next == node.kids[prefix[index]].node
    ensures Here(prefix, root, next, index + 1, index + 1, 0, true)
    ensures Link(prefix, node, start, prefix[index], next, index + 1)
  {
    CutKey(prefix, start, index);
  }

  lemma CutKey(key: Key, i: nat, j: nat)
    requires i <= j < |key|
    ensures key[j..] != [] && key[j..][0] == key[j] && key[j..][1..] == key[j + 1..]
    ensures key[i..] == key[i..j] + [key[j]] + key[j + 1..]
  {
  }

  lemma TrailGrows(prefix: Key, root: Node, path: seq<Node>, stack: seq<(nat, Nibble)>, pos: seq<nat>,
                   b: Nibble, next: Node, j: nat)
    requires Trail(prefix, root, path, stack, pos)
    requires Link(prefix, path[|stack|], pos[|stack|], b, next, j)
    ensures Trail(prefix, root, path + [next], stack + [(|stack|, b)], pos + [j])
  {
    var path', stack', pos' := path + [next], stack + [(|stack|, b)], pos + [j];
    forall t | 0 <= t < |stack'| ensures Link(prefix, path'[t], pos'[t], stack'[t].1, path'[t + 1], pos'[t + 1]) {
      if t < |stack| {
        assert Link(prefix, path[t], pos[t], stack[t].1, path[t + 1], pos[t + 1]);
      }
    }
  }

  /** Whether the descent can go no further: the next nibble fits neither the path nor a branch. */
  predicate Stuck(prefix: Key, node: Node, index: nat, inNode: nat)
    requires index < |prefix|
  {
    if inNode < |node.path| then prefix[index] != node.path[inNode] else prefix[index] !in node.kids
  }

  lemma HereEnds(prefix: Key, root: Node, node: Node, start: nat, index: nat, inNode: nat, moved: bool)
    requires Here(prefix, root, node, start, index, inNode, moved)
    requires index < |prefix| ==> Stuck(prefix, node, index, inNode)
    ensures Find(root, 0, prefix).code == KeyEndsEarlier <==> index == |prefix| && inNode < |node.path|
    ensures index == |prefix| && inNode == |node.path| ==> prefix[start..] == node.path && !StopsAtRoot(root, prefix)
    ensures index < |prefix| ==> (StopsAtRoot(root, prefix) <==> !moved)
    ensures index < |prefix| ==>
              && Followed(root, 0, prefix) == index
              && Find(root, 0, prefix)
                 == Outcome(if inNode < |node.path| then KeyMismatch else BranchNotExist, node, inNode)
    ensures index == |prefix| && inNode == |node.path| ==> Find(root, 0, prefix) == Outcome(Success, node, inNode)
    ensures index < |prefix| ==> prefix[start..] == node.path[..inNode] + [prefix[index]] + prefix[index + 1..]
  {
    if index == |prefix| {
      assert prefix[index..] == [];
      if inNode == |node.path| && !moved {
        assert prefix == prefix[start..index] == node.path;
      }
    } else {
      assert prefix[start..] == prefix[start..index] + [prefix[index]] + prefix[index + 1..];
    }
  }

  method SplitNode(disk: Store, node: Node, inNode: nat, nibble: Nibble, rest: Key, src: Node, value: Option<Value>,
                   version: int)
    returns (n: Node, disk': Store)
    requires inNode < |node.path| && nibble != node.path[inNode] && Settled(disk, src) && Settled(disk, node)
    ensures disk <= disk' && Settled(disk', n) && n.value == value && n.path == node.path[..inNode]
    ensures Grafted(n, node, node.path[..inNode] + [nibble] + rest, src, Some(Join(inNode, Info(value, version))))
  {
    var destHalf := Node(rest, src.value, src.version, src.kids);
    var nodeHalf := Node(node.path[inNode + 1..], node.value, node.version, node.kids);
    n, disk' := CreateNodeWithTwoChildren(disk, node.path[..inNode], nibble, destHalf, node.path[inNode], nodeHalf,
                                          version, value);
    SettledClone(disk, destHalf, src);
    SettledClone(disk, nodeHalf, node);
    TwoSettle(disk, nibble, destHalf, node.path[inNode], nodeHalf, n);
    SplitGrafts(node, inNode, nibble, rest, src, value, version, n.kids[nibble], n.kids[node.path[inNode]]);
  }

  method AddBranch(disk: Store, node: Node, nibble: Nibble, rest: Key, src: Node, value: Option<Value>, version: int)
    returns (n: Node, disk': Store)
    requires nibble !in node.kids && Settled(disk, src) && Settled(disk, node)
    ensures disk <= disk' && Settled(disk', n) && n.value == value && n.path == node.path
    ensures Grafted(n, node, node.path + [nibble] + rest, src, Some(Join(|node.path|, Info(value, version))))
  {
    var destNode := Node(rest, src.value, src.version, src.kids);
    n, disk' := CreateNodeAddNewBranch(disk, node, nibble, destNode, version, value);
    SettledClone(disk, destNode, src);
    AddSettles(disk, node, nibble, destNode, n);
    AddGrafts(node, nibble, rest, src, value, version, |disk|, CalcMinVersion(destNode));
  }

  /** The version the copied node gets: the new one when it replaces a node, otherwise the one it had. */
  function TopVersion(root: Node, prefix: Key, src: Node, version: int): int {
    if Find(root, 0, prefix).code == Success then version else src.version
  }

  /** The node above it, when the descent ended before the prefix did: it gets the new version; the root node takes the
      source root's value, another node keeps its value, and a node made by a split has none. */
  function JoinOf(root: Node, prefix: Key, rootValue: Option<Value>, version: int): Option<Join> {
    var o := Find(root, 0, prefix);
    if o.code == Success then None
    else
      var value := if StopsAtRoot(root, prefix) then rootValue
                   else if o.code == BranchNotExist then o.node.value else None;
      Some(Join(Followed(root, 0, prefix), Info(value, version)))
  }

  /** The graft at the node where the descent ends: the node is replaced, split, or gets a branch. */
  method GraftHere(disk: Store, prefix: Key, ghost root: Node, node: Node, ghost start: nat, index: nat, inNode: nat,
                   atRoot: bool,
                   src: Node, rootValue: Option<Value>, version: int)
    returns (r: Copied)
    requires Here(prefix, root, node, start, index, inNode, !atRoot)
    requires index < |prefix| ==> Stuck(prefix, node, index, inNode)
    requires Settled(disk, src) && Settled(disk, node)
    ensures r.Aborted? <==>
            Find(root, 0, prefix).code == KeyEndsEarlier || (StopsAtRoot(root, prefix) && rootValue == None)
    ensures r.Copied? ==> disk <= r.disk && Settled(r.disk, r.root)
    ensures r.Copied? ==>
              var join := JoinOf(root, prefix, rootValue, version);
              && (join.Some? ==> start <= join.value.len)
              && Grafted(r.root, node, prefix[start..], src.(version := TopVersion(root, prefix, src, version)),
                         From(join, start))
    ensures r.Copied? && StopsAtRoot(root, prefix) ==>
              r.root.value == rootValue && r.root.path == prefix[..Followed(root, 0, prefix)]
  {
    HereEnds(prefix, root, node, start, index, inNode, !atRoot);
    if index == |prefix| {
      if inNode != |node.path| {
        return Aborted;
      }
      ReplaceGrafts(node, src, version);
      return Copied(Node(node.path, src.value, version, src.kids), disk);
    }
    if atRoot && rootValue == None {
      return Aborted;
    }
    assert src.(version := src.version) == src;
    var n, disk';
    if inNode < |node.path| {
      n, disk' := SplitNode(disk, node, inNode, prefix[index], prefix[index + 1..], src,
                            if atRoot then rootValue else None, version);
    } else {
      assert node.path[..inNode] == node.path;
      n, disk' := AddBranch(disk, node, prefix[index], prefix[index + 1..], src,
                            if atRoot then rootValue else node.value, version);
    }
    r := Copied(n, disk');
  }

  // ---------------------------------------------------------------- the whole copy

  /** Lookup continues from the node a prefix leads to. */
  lemma {:induction false} FindThen(n: Node, prefix: Key, rest: Key)
    requires Find(n, 0, prefix).code == Success
    ensures Get(n, prefix + rest) == GetBelow(Find(n, 0, prefix).node, rest)
    decreases |prefix|
  {
    FindPath(n, 0, prefix);
    assert n.path[0..] == n.path;
    GetSplits(n, prefix + rest);
    var below := prefix[|n.path|..];
    assert (prefix + rest)[|n.path|..] == below + rest;
    if below == [] {
      assert below + rest == rest;
    } else {
      FindThen(n.kids[below[0]].node, below[1..], rest);
      assert (below + rest)[1..] == below[1..] + rest;
    }
  }

  lemma {:induction false} FindSettled(disk: Store, n: Node, i: nat, key: Key)
    requires i <= |n.path| && Settled(disk, n)
    ensures Settled(disk, Find(n, i, key).node)
    decreases |key|
  {
    if key != [] {
      if i < |n.path| {
        if key[0] == n.path[i] {
          FindSettled(disk, n, i + 1, key[1..]);
        }
      } else if key[0] in n.kids {
        FindSettled(disk, n.kids[key[0]].node, 0, key[1..]);
      }
    }
  }

  function Before(dest: Option<Node>, key: Key): Option<Value> {
    if dest == None then None else Get(dest.value, key)
  }

  /** Under the destination prefix the result reads as the source under the source prefix, and everywhere
      else as before; only the key of the root node itself may be taken over by the source root's value. */
  ghost predicate CopiedTo(n: Node, srcRoot: Node, srcPrefix: Key, dest: Option<Node>, prefix: Key) {
    forall key ::
      || Get(n, key) == (if prefix <= key then Get(srcRoot, srcPrefix + key[|prefix|..]) else Before(dest, key))
      || (key == n.path && (dest == None || StopsAtRoot(dest.value, prefix)) && Get(n, key) == srcRoot.value)
  }

  /** Which node ends at `key` after the copy, with which value and version.  The copied node has the new version where
      it replaces a node or the destination was empty, otherwise the version it had; the nodes below it keep theirs.
      The node it is hung below has the new version; every other node is as before. */
  function After(srcRoot: Node, src: Node, dest: Option<Node>, prefix: Key, version: int, key: Key): Option<Info> {
    var isNew := dest == None || Find(dest.value, 0, prefix).code == Success;
    if key == prefix then Some(Info(src.value, if isNew then version else src.version))
    else if prefix <= key then LookBelow(src, key[|prefix|..])
    else if dest == None then if key == [] then Some(Info(srcRoot.value, version)) else None
    else
      var o := Find(dest.value, 0, prefix);
      if o.code != Success && key == prefix[..Followed(dest.value, 0, prefix)] then
        Some(Info(if StopsAtRoot(dest.value, prefix) then srcRoot.value
                  else if o.code == BranchNotExist then o.node.value else None, version))
      else Look(dest.value, key)
  }

  ghost predicate NodesCopied(n: Node, srcRoot: Node, srcPrefix: Key, dest: Option<Node>, prefix: Key, version: int) {
    forall key :: Look(n, key) == After(srcRoot, Find(srcRoot, 0, srcPrefix).node, dest, prefix, version, key)
  }

  lemma BelowTop(src: Node, version: int, key: Key)
    ensures LookBelow(src.(version := version), key)
            == if key == [] then Some(Info(src.value, version)) else LookBelow(src, key)
  {
  }

  lemma GraftedNodes(n: Node, srcRoot: Node, srcPrefix: Key, dest: Node, prefix: Key, src: Node, version: int)
    requires src == Find(srcRoot, 0, srcPrefix).node && Find(dest, 0, prefix).code != KeyEndsEarlier
    requires Grafted(n, dest, prefix, src.(version := TopVersion(dest, prefix, src, version)),
                     JoinOf(dest, prefix, srcRoot.value, version))
    ensures NodesCopied(n, srcRoot, srcPrefix, Some(dest), prefix, version)
  {
    var join := JoinOf(dest, prefix, srcRoot.value, version);
    forall key ensures Look(n, key) == After(srcRoot, src, Some(dest), prefix, version, key) {
      assert GraftedAt(n, dest, prefix, src.(version := TopVersion(dest, prefix, src, version)), join, key);
      FollowedLooks(dest, 0, prefix);
      if prefix <= key {
        BelowTop(src, TopVersion(dest, prefix, src, version), key[|prefix|..]);
        assert key[|prefix|..] == [] <==> key == prefix;
      }
    }
  }

  /** The contents follow: under the prefix the source, elsewhere what was there. */
  lemma NodesRead(n: Node, srcRoot: Node, srcPrefix: Key, dest: Option<Node>, prefix: Key, version: int)
    requires Find(srcRoot, 0, srcPrefix).code == Success
    requires NodesCopied(n, srcRoot, srcPrefix, dest, prefix, version)
    requires dest == None ==> n.path == []
    requires dest.Some? && StopsAtRoot(dest.value, prefix) ==> n.path == prefix[..Followed(dest.value, 0, prefix)]
    requires dest.Some? ==> Find(dest.value, 0, prefix).code != KeyEndsEarlier
    ensures CopiedTo(n, srcRoot, srcPrefix, dest, prefix)
  {
    var src := Find(srcRoot, 0, srcPrefix).node;
    forall key ensures
        || Get(n, key) == (if prefix <= key then Get(srcRoot, srcPrefix + key[|prefix|..]) else Before(dest, key))
        || (key == n.path && (dest == None || StopsAtRoot(dest.value, prefix)) && Get(n, key) == srcRoot.value)
    {
      assert Look(n, key) == After(srcRoot, src, dest, prefix, version, key);
      GetLooks(n, key);
      if prefix <= key {
        FindThen(srcRoot, srcPrefix, key[|prefix|..]);
        GetLooks(src, key[|prefix|..]);
        assert key[|prefix|..] == [] <==> key == prefix;
      } else if dest.Some? {
        GetLooks(dest.value, key);
        FollowedLooks(dest.value, 0, prefix);
      }
    }
  }

  /** A fresh root above the copied node. */
  lemma FreshRoot(n: Node, k: Kid, srcRoot: Node, srcPrefix: Key, prefix: Key, src: Node, version: int)
    requires src == Find(srcRoot, 0, srcPrefix).node
    requires prefix != [] && k.node == Node(prefix[1..], src.value, version, src.kids)
    requires n == Node([], srcRoot.value, version, map[prefix[0] := k])
    ensures NodesCopied(n, srcRoot, srcPrefix, None, prefix, version)
  {
    forall key ensures Look(n, key) == After(srcRoot, src, None, prefix, version, key) {
      assert prefix == [] + [prefix[0]] + prefix[1..];
      PrefixSplit([], prefix[0], prefix[1..], key);
      ReadThrough(n, key);
      if key != [] {
        CloneReads(k.node, src.(version := version), key[1..]);
      }
      if prefix <= key {
        BelowTop(src, version, key[|prefix|..]);
        assert key[|prefix|..] == [] <==> key == prefix;
      }
    }
  }

  lemma DescendBranch(prefix: Key, root: Node, path: seq<Node>, stack: seq<(nat, Nibble)>, pos: seq<nat>, node: Node,
                      index: nat, next: Node)
    requires Trail(prefix, root, path, stack, pos) && node == path[|stack|]
    requires Here(prefix, root, node, pos[|stack|], index, |node.path|, stack != [])
    requires index < |prefix| && prefix[index] in node.kids && next == node.kids[prefix[index]].node
    ensures var path', stack', pos' := path + [next], stack + [(|stack|, prefix[index])], pos + [index + 1];
            && Trail(prefix, root, path', stack', pos')
            && path'[|stack'|] == next && pos'[|stack'|] == index + 1 && stack' != []
            && Here(prefix, root, next, index + 1, index + 1, 0, true)
  {
    HereBranch(prefix, root, node, pos[|stack|], index, stack != [], next);
    TrailGrows(prefix, root, path, stack, pos, prefix[index], next, index + 1);
  }

  /** The descent: match the prefix nibble by nibble, remembering the branches taken on a stack. */
  method Descend(prefix: Key, root: Node)
    returns (path: seq<Node>, stack: seq<(nat, Nibble)>, index: nat, inNode: nat, ghost pos: seq<nat>)
    ensures Trail(prefix, root, path, stack, pos)
    ensures Here(prefix, root, path[|stack|], pos[|stack|], index, inNode, stack != [])
    ensures index < |prefix| ==> Stuck(prefix, path[|stack|], index, inNode)
  {
    path, stack, index, inNode, pos := [root], [], 0, 0, [0];
    var node := root;
    ghost var start := 0;
    HereStart(prefix, root);
    while index < |prefix| && !Stuck(prefix, node, index, inNode)
      invariant Trail(prefix, root, path, stack, pos) && node == path[|stack|] && start == pos[|stack|]
      invariant Here(prefix, root, node, start, index, inNode, stack != [])
    {
      if inNode < |node.path| {
        HereMatch(prefix, root, node, start, index, inNode, stack != []);
        index, inNode := index + 1, inNode + 1;
      } else {
        var next := node.kids[prefix[index]].node;
        DescendBranch(prefix, root, path, stack, pos, node, index, next);
        path, stack, pos := path + [next], stack + [(|stack|, prefix[index])], pos + [index + 1];
        node, start, index, inNode := next, index + 1, index + 1, 0;
      }
    }
  }

  /** The whole copy: it aborts exactly when one of its assertions fails; otherwise the contents are as copied,
      every node below the root is on disk, and every recorded least version is right. */
  method CopyTrieImpl(disk0: Store, srcRoot: Node, srcPrefix: Key, dest: Option<Node>, prefix: Key, version: int)
    returns (r: Copied)
    requires Settled(disk0, srcRoot) && (dest.Some? ==> Settled(disk0, dest.value))
    ensures r.Aborted? <==> Aborts(srcRoot, srcPrefix, dest, prefix)
    ensures r.Copied? ==> disk0 <= r.disk && Settled(r.disk, r.root)
    ensures r.Copied? ==> CopiedTo(r.root, srcRoot, srcPrefix, dest, prefix)
    ensures r.Copied? ==> NodesCopied(r.root, srcRoot, srcPrefix, dest, prefix, version)
  {
    var found := Find(srcRoot, 0, srcPrefix);
    if found.code != Success {
      return Aborted;
    }
    var src := found.node;
    FindSettled(disk0, srcRoot, 0, srcPrefix);
    if dest == None {
      r := CopyToEmpty(disk0, srcRoot, srcPrefix, src, prefix, version);
      if r.Copied? {
        NodesRead(r.root, srcRoot, srcPrefix, None, prefix, version);
      }
      return;
    }
    var root := dest.value;
    ghost var pos: seq<nat>;
    var path, stack, index, inNode;
    path, stack, index, inNode, pos := Descend(prefix, root);
    TrailSettled(disk0, prefix, root, path, stack, pos, |stack|);
    r := GraftHere(disk0, prefix, root, path[|stack|], pos[|stack|], index, inNode, stack == [], src, srcRoot.value,
                   version);
    if r.Copied? {
      if stack != [] {
        SettledGrows(disk0, r.disk, root);
        var root', disk := RewriteAncestors(r.disk, prefix, root, path, stack, r.root, pos,
                                            src.(version := TopVersion(root, prefix, src, version)),
                                            JoinOf(root, prefix, srcRoot.value, version));
        r := Copied(root', disk);
      }
      assert prefix[0..] == prefix;
      GraftedNodes(r.root, srcRoot, srcPrefix, root, prefix, src, version);
      NodesRead(r.root, srcRoot, srcPrefix, dest, prefix, version);
    }
  }

  method CopyToEmpty(disk0: Store, srcRoot: Node, srcPrefix: Key, src: Node, prefix: Key, version: int)
    returns (r: Copied)
    requires Find(srcRoot, 0, srcPrefix).code == Success && src == Find(srcRoot, 0, srcPrefix).node
             && Settled(disk0, src)
    ensures r.Aborted? <==> prefix == [] || srcRoot.value == None
    ensures r.Copied? ==> disk0 <= r.disk && Settled(r.disk, r.root)
    ensures r.Copied? ==> r.root.path == [] && NodesCopied(r.root, srcRoot, srcPrefix, None, prefix, version)
  {
    if prefix == [] || srcRoot.value == None {
      return Aborted;
    }
    var newNode := Node(prefix[1..], src.value, version, src.kids);
    SettledClone(disk0, newNode, src);
    var k, disk := WriteChild(disk0, newNode);
    var root := Node([], srcRoot.value, version, map[prefix[0] := k]);
    SettledIff(disk, root);
    FreshRoot(root, k, srcRoot, srcPrefix, prefix, src, version);
    r := Copied(root, disk);
  }
}
