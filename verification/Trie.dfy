/**
 The trie as a value, its form on disk, and lookup by key.  A node covers the nibbles of its
 path; a child is reached by one branch nibble and continues with its own path.
 */
module Trie {

  type Nibble = n: nat | n < 16
  type Key = seq<Nibble>
  type Value = seq<nat>
  type Offset = nat

  datatype Option<+T> = None | Some(value: T)

  /** What a parent records about a child: the child, where it is on disk, and the least
      version in its subtrie. */
  datatype Kid = Kid(node: Node, offset: Offset, minVersion: int)

  datatype Node = Node(path: Key, value: Option<Value>, version: int, kids: map<Nibble, Kid>)

  /** A node as it is serialized: children only by offset. */
  datatype Flat = Flat(path: Key, value: Option<Value>, version: int, kids: map<Nibble, (Offset, int)>)

  function Flatten(n: Node): Flat {
    Flat(n.path, n.value, n.version, map b | b in n.kids :: (n.kids[b].offset, n.kids[b].minVersion))
  }

  type Store = seq<Flat>

  /** Every proper descendant is on disk, at the offset its parent records. */
  ghost predicate OnDisk(disk: Store, n: Node) {
    forall b :: b in n.kids ==>
                  && n.kids[b].offset < |disk| && disk[n.kids[b].offset] == Flatten(n.kids[b].node)
                  && OnDisk(disk, n.kids[b].node)
  }

  // ---------------------------------------------------------------- lookup

  datatype Code = Success | RootNull | KeyMismatch | BranchNotExist | KeyEndsEarlier | VersionGone | NeedIoThread

  datatype Outcome = Outcome(code: Code, node: Node, index: nat)

  /** Lookup of `key` from position `i` of the path of `n`. */
  function Find(n: Node, i: nat, key: Key): Outcome
    requires i <= |n.path|
    decreases |key|
  {
    if i < |n.path| then
      if key == [] then Outcome(KeyEndsEarlier, n, i)
      else if key[0] != n.path[i] then Outcome(KeyMismatch, n, i)
      else Find(n, i + 1, key[1..])
    else if key == [] then Outcome(Success, n, i)
    else if key[0] in n.kids then Find(n.kids[key[0]].node, 0, key[1..])
    else Outcome(BranchNotExist, n, i)
  }

  /** The trie below `n` reaches `m` by spelling out `key`: node paths and branches in turn. */
  ghost predicate Spells(n: Node, key: Key, m: Node)
    decreases |key|, 0
  {
    || (key == n.path && m == n)
    || (|n.path| < |key| && key[..|n.path|] == n.path && key[|n.path|] in n.kids
        && Spells(n.kids[key[|n.path|]].node, key[|n.path| + 1..], m))
  }

  /** The value stored under `key`. */
  function Get(n: Node, key: Key): Option<Value> {
    var o := Find(n, 0, key);
    if o.code == Success then o.node.value else None
  }

  /** The value under `key`, counted from the end of the path of `n`. */
  function GetBelow(n: Node, key: Key): Option<Value> {
    if key == [] then n.value
    else if key[0] in n.kids then Get(n.kids[key[0]].node, key[1..])
    else None
  }

  /** How many nibbles of the key lookup follows before it ends. */
  function Followed(n: Node, i: nat, key: Key): (a: nat)
    requires i <= |n.path|
    ensures a <= |key|
    decreases |key|
  {
    if key == [] then 0
    else if i < |n.path| then if key[0] == n.path[i] then 1 + Followed(n, i + 1, key[1..]) else 0
    else if key[0] in n.kids then 1 + Followed(n.kids[key[0]].node, 0, key[1..])
    else 0
  }

  /** Where the children are that lookup goes through. */
  function Passes(n: Node, i: nat, key: Key): set<Offset>
    requires i <= |n.path|
    decreases |key|
  {
    if key == [] then {}
    else if i < |n.path| then if key[0] == n.path[i] then Passes(n, i + 1, key[1..]) else {}
    else if key[0] in n.kids then {n.kids[key[0]].offset} + Passes(n.kids[key[0]].node, 0, key[1..])
    else {}
  }

  /** What a node of its own carries. */
  datatype Info = Info(value: Option<Value>, version: int)

  /** The node that ends at `key`, if there is one. */
  function Look(n: Node, key: Key): Option<Info> {
    var o := Find(n, 0, key);
    if o.code == Success then Some(Info(o.node.value, o.node.version)) else None
  }

  /** The same, counted from the end of the path of `n`. */
  function LookBelow(n: Node, key: Key): Option<Info> {
    if key == [] then Some(Info(n.value, n.version))
    else if key[0] in n.kids then Look(n.kids[key[0]].node, key[1..])
    else None
  }

  /** Following the path of a node nibble by nibble. */
  lemma {:induction false} FindPath(n: Node, i: nat, key: Key)
    requires i <= |n.path|
    ensures n.path[i..] <= key ==> Find(n, i, key) == Find(n, |n.path|, key[|n.path| - i..])
    ensures !(n.path[i..] <= key) ==> Find(n, i, key).code != Success
    decreases |n.path| - i
  {
    if i < |n.path| && key != [] && key[0] == n.path[i] {
      FindPath(n, i + 1, key[1..]);
      assert n.path[i..] == [n.path[i]] + n.path[i + 1..];
      assert n.path[i..] <= key <==> n.path[i + 1..] <= key[1..];
      if n.path[i..] <= key {
        assert key[|n.path| - i..] == key[1..][|n.path| - i - 1..];
      }
    } else if i == |n.path| {
      assert n.path[i..] == [] && key[0..] == key;
    }
  }

  lemma GetSplits(n: Node, key: Key)
    ensures Get(n, key) == if n.path <= key then GetBelow(n, key[|n.path|..]) else None
  {
    FindPath(n, 0, key);
    assert n.path[0..] == n.path;
  }

  lemma LookSplits(n: Node, key: Key)
    ensures Look(n, key) == if n.path <= key then LookBelow(n, key[|n.path|..]) else None
  {
    FindPath(n, 0, key);
    assert n.path[0..] == n.path;
  }

  lemma GetLooks(n: Node, key: Key)
    ensures Get(n, key) == if Look(n, key) == None then None else Look(n, key).value.value
    ensures GetBelow(n, key) == if LookBelow(n, key) == None then None else LookBelow(n, key).value.value
  {
  }

  /** Up to where lookup follows the key there is the node it stopped at, or the inside of its path. */
  lemma {:induction false} FollowedLooks(n: Node, i: nat, key: Key)
    requires i <= |n.path|
    ensures var o, p := Find(n, i, key), Find(n, i, key[..Followed(n, i, key)]);
            && p.node == o.node && p.index == o.index <= |o.node.path|
            && (o.code == Success ==> Followed(n, i, key) == |key|)
            && (o.code in {Success, BranchNotExist} ==> p.code == Success && p.index == |p.node.path|)
            && (o.code in {KeyMismatch, KeyEndsEarlier} ==> p.code == KeyEndsEarlier && p.index < |p.node.path|)
            && (o.code == KeyMismatch ==>
                  Followed(n, i, key) < |key| && key[Followed(n, i, key)] != o.node.path[o.index])
            && (o.code == BranchNotExist ==> Followed(n, i, key) < |key| && key[Followed(n, i, key)] !in o.node.kids)
            && o.code in {Success, BranchNotExist, KeyMismatch, KeyEndsEarlier}
            && (o.code == KeyEndsEarlier ==> Followed(n, i, key) == |key|)
    decreases |key|
  {
    var a := Followed(n, i, key);
    if a > 0 {
      assert key[..a][1..] == key[1..][..a - 1];
      if i < |n.path| {
        FollowedLooks(n, i + 1, key[1..]);
      } else {
        FollowedLooks(n.kids[key[0]].node, 0, key[1..]);
      }
    }
  }

  /** Lookup succeeds at exactly the node whose spelling is the key. */
  lemma {:induction false} FindSpells(n: Node, key: Key, m: Node)
    ensures Spells(n, key, m) <==> Find(n, 0, key).code == Success && Find(n, 0, key).node == m
    decreases |key|
  {
    FindPath(n, 0, key);
    assert n.path[0..] == n.path;
    if n.path <= key {
      var rest := key[|n.path|..];
      if rest == [] {
        assert key == n.path;
      } else if rest[0] in n.kids {
        FindSpells(n.kids[rest[0]].node, rest[1..], m);
        assert key[|n.path| + 1..] == rest[1..];
      }
    }
  }

  /** A lookup that used up its key goes on from where it is. */
  lemma {:induction false} FindOn(n: Node, i: nat, key: Key, rest: Key)
    requires i <= |n.path| && Find(n, i, key).code in {Success, KeyEndsEarlier}
    ensures var o := Find(n, i, key); o.index <= |o.node.path| && Find(n, i, key + rest) == Find(o.node, o.index, rest)
    decreases |key|
  {
    if key == [] {
      assert key + rest == rest;
    } else {
      assert (key + rest)[1..] == key[1..] + rest;
      if i < |n.path| {
        FindOn(n, i + 1, key[1..], rest);
      } else {
        FindOn(n.kids[key[0]].node, 0, key[1..], rest);
      }
    }
  }

  /** A key that leads out of a node is longer than the path of the node it leads to. */
  lemma {:induction false} FindLong(n: Node, i: nat, key: Key)
    requires i <= |n.path| && Find(n, i, key).code == Success
    ensures var m := Find(n, i, key).node; (m == n && |key| == |n.path| - i) || |n.path| - i + 1 + |m.path| <= |key|
    decreases |key|
  {
    if i < |n.path| {
      FindLong(n, i + 1, key[1..]);
    } else if key != [] {
      FindLong(n.kids[key[0]].node, 0, key[1..]);
    }
  }

  /** Following the rest of a node's path. */
  lemma {:induction false} FindRest(m: Node, j: nat)
    requires j <= |m.path|
    ensures Find(m, j, m.path[j..]) == Outcome(Success, m, |m.path|)
    decreases |m.path| - j
  {
    if j < |m.path| {
      FindRest(m, j + 1);
      assert m.path[j..][1..] == m.path[j + 1..];
    }
  }

  /** A lookup that would succeed at `m` with the rest of its path ends inside `m`. */
  lemma {:induction false} FindShort(n: Node, i: nat, key: Key, m: Node, j: nat)
    requires i <= |n.path| && j <= |m.path| && Find(n, i, key + m.path[j..]).code == Success
    requires Find(n, i, key + m.path[j..]).node == m
    ensures Find(n, i, key) == Outcome(if j < |m.path| then KeyEndsEarlier else Success, m, j)
    decreases |key|
  {
    var all := key + m.path[j..];
    if key == [] {
      FindLong(n, i, all);
    } else {
      assert all[1..] == key[1..] + m.path[j..];
      if i < |n.path| {
        FindShort(n, i + 1, key[1..], m, j);
      } else {
        FindShort(n.kids[key[0]].node, 0, key[1..], m, j);
      }
    }
  }

  /** The key ends at position `j` of the path of `m`. */
  lemma EndsAt(n: Node, key: Key, m: Node, j: nat)
    requires j <= |m.path|
    ensures Spells(n, key + m.path[j..], m)
            <==> Find(n, 0, key) == Outcome(if j < |m.path| then KeyEndsEarlier else Success, m, j)
  {
    FindSpells(n, key + m.path[j..], m);
    if Spells(n, key + m.path[j..], m) {
      FindShort(n, 0, key, m, j);
    }
    if Find(n, 0, key) == Outcome(if j < |m.path| then KeyEndsEarlier else Success, m, j) {
      FindOn(n, 0, key, m.path[j..]);
      FindRest(m, j);
    }
  }

  /** What an outcome says about the trie: the key, or a part of it, leads to position `index` of the path of a node,
      and there it ends, or its next nibble fits neither the path nor a branch. */
  ghost predicate Means(n: Node, key: Key, o: Outcome) {
    o.index <= |o.node.path| &&
    match o.code
    case Success => o.index == |o.node.path| && Spells(n, key, o.node)
    case KeyEndsEarlier => o.index < |o.node.path| && Spells(n, key + o.node.path[o.index..], o.node)
    case KeyMismatch =>
      && o.index < |o.node.path|
      && exists a: nat ::
           a < |key| && Spells(n, key[..a] + o.node.path[o.index..], o.node) && key[a] != o.node.path[o.index]
    case BranchNotExist =>
      && o.index == |o.node.path|
      && exists a: nat :: a < |key| && Spells(n, key[..a], o.node) && key[a] !in o.node.kids
    case _ => false
  }

  lemma MeansFound(n: Node, key: Key, o: Outcome)
    requires Find(n, 0, key) == o
    ensures Means(n, key, o)
  {
    var m, j, a := o.node, o.index, Followed(n, 0, key);
    FollowedLooks(n, 0, key);
    EndsAt(n, key[..a], m, j);
    if a == |key| {
      assert key[..a] == key;
    }
    if j == |m.path| {
      assert key[..a] + m.path[j..] == key[..a];
    }
  }

  lemma FoundMeans(n: Node, key: Key, o: Outcome)
    requires Means(n, key, o)
    ensures Find(n, 0, key) == o
  {
    var m, j := o.node, o.index;
    match o.code
    case Success => assert key + m.path[j..] == key; EndsAt(n, key, m, j);
    case KeyEndsEarlier => EndsAt(n, key, m, j);
    case KeyMismatch =>
      var a: nat :| a < |key| && Spells(n, key[..a] + m.path[j..], m) && key[a] != m.path[j];
      StopsThere(n, key, m, j, a);
    case BranchNotExist =>
      var a: nat :| a < |key| && Spells(n, key[..a], m) && key[a] !in m.kids;
      assert key[..a] + m.path[j..] == key[..a];
      StopsThere(n, key, m, j, a);
  }

  lemma StopsThere(n: Node, key: Key, m: Node, j: nat, a: nat)
    requires j <= |m.path| && a < |key| && Spells(n, key[..a] + m.path[j..], m)
    ensures Find(n, 0, key) == Find(m, j, key[a..]) && key[a..][0] == key[a]
  {
    EndsAt(n, key[..a], m, j);
    FindOn(n, 0, key[..a], key[a..]);
    assert key[..a] + key[a..] == key;
  }

  /** Every code that lookup returns, with its node and index, says exactly that. */
  lemma FindMeans(n: Node, key: Key, o: Outcome)
    ensures Find(n, 0, key) == o <==> Means(n, key, o)
  {
    if Means(n, key, o) {
      FoundMeans(n, key, o);
    }
    if Find(n, 0, key) == o {
      MeansFound(n, key, o);
    }
  }
}
