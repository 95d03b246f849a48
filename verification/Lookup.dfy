/**
 The lookup implementations: the blocking loop, the fiber recursion over in-memory children,
 the fiber recursion over the node cache, and the re-entering sender.  Each is proved to
 return what `Trie.Find` returns, whichever children are in memory, in the cache or only on
 disk; so all of them agree.

 No chunk is recycled during these calls, so the cache is keyed by the physical offset.
 */
module Lookup {
  import opened Trie

  type Ptr = nat

  datatype MemNode = MemNode(flat: Flat, next: map<Nibble, Ptr>)

  datatype Cursor = Null | At(ptr: Ptr, index: nat)

  /** Serialized nodes whose descendants are on disk determine the subtrie. */
  lemma {:induction false} FlatDetermines(disk: Store, a: Node, b: Node)
    requires Flatten(a) == Flatten(b) && OnDisk(disk, a) && OnDisk(disk, b)
    ensures a == b
  {
    assert a.kids.Keys == Flatten(a).kids.Keys == Flatten(b).kids.Keys == b.kids.Keys;
    forall x | x in a.kids ensures a.kids[x] == b.kids[x] {
      assert Flatten(a).kids[x] == Flatten(b).kids[x];
      FlatDetermines(disk, a.kids[x].node, b.kids[x].node);
    }
    assert a.kids == b.kids;
  }

  /** Every child that lookup of `key` goes through from position `i` of the node is in memory. */
  ghost predicate InMemory(heap: seq<MemNode>, p: Ptr, i: nat, key: Key)
    decreases |key|
  {
    p < |heap| &&
    (key == [] ||
     if i < |heap[p].flat.path| then key[0] == heap[p].flat.path[i] ==> InMemory(heap, p, i + 1, key[1..])
     else key[0] in heap[p].flat.kids ==>
            key[0] in heap[p].next && InMemory(heap, heap[p].next[key[0]], 0, key[1..]))
  }

  /** Nodes and children that are in memory stay there. */
  ghost predicate Grows(heap: seq<MemNode>, heap': seq<MemNode>) {
    && |heap| <= |heap'|
    && forall p :: 0 <= p < |heap| ==>
                     && heap'[p].flat == heap[p].flat
                     && forall b :: b in heap[p].next ==> b in heap'[p].next && heap'[p].next[b] == heap[p].next[b]
  }

  lemma GrowsOn(h: seq<MemNode>, h': seq<MemNode>, h'': seq<MemNode>)
    requires Grows(h, h') && Grows(h', h'')
    ensures Grows(h, h'')
  {
  }

  /** From the first position lookup gets to the second one without a read, now and later on. */
  ghost predicate Leads(heap: seq<MemNode>, p: Ptr, i: nat, key: Key, q: Ptr, j: nat, rest: Key) {
    forall heap' :: Grows(heap, heap') && InMemory(heap', q, j, rest) ==> InMemory(heap', p, i, key)
  }

  lemma LeadsOn(h: seq<MemNode>, h': seq<MemNode>, p: Ptr, i: nat, key: Key, q: Ptr, j: nat, rest: Key)
    requires Leads(h, p, i, key, q, j, rest) && Grows(h, h')
    ensures Leads(h', p, i, key, q, j, rest)
  {
    forall h'' | Grows(h', h'') && InMemory(h'', q, j, rest) ensures InMemory(h'', p, i, key) {
      GrowsOn(h, h', h'');
    }
  }

  /** One nibble further, inside a node or to its child. */
  lemma LeadsStep(h: seq<MemNode>, p: Ptr, i: nat, key: Key, q: Ptr, j: nat, rest: Key, q': Ptr, j': nat)
    requires Leads(h, p, i, key, q, j, rest) && q < |h| && rest != []
    requires if j < |h[q].flat.path| then q' == q && j' == j + 1
             else rest[0] in h[q].next && q' == h[q].next[rest[0]] && j' == 0
    ensures Leads(h, p, i, key, q', j', rest[1..])
  {
    forall h' | Grows(h, h') && InMemory(h', q', j', rest[1..]) ensures InMemory(h', p, i, key) {
      assert InMemory(h', q, j, rest);
    }
  }

  class Memory {
    const disk: Store
    var heap: seq<MemNode>
    var cache: map<Offset, Ptr>
    ghost var tags: seq<Node>

    /** The pointer stands for the trie node recorded as its tag. */
    ghost predicate Holds(p: Ptr)
      requires p < |heap| && |heap| == |tags|
      reads this`heap, this`tags
    {
      && heap[p].flat == Flatten(tags[p]) && OnDisk(disk, tags[p])
      && forall b :: b in heap[p].next ==>
                       b in tags[p].kids && heap[p].next[b] < |heap| && tags[heap[p].next[b]] == tags[p].kids[b].node
    }

    ghost predicate Valid()
      reads this
    {
      && |heap| == |tags|
      && (forall p :: 0 <= p < |heap| ==> Holds(p))
      && (forall off :: off in cache ==> off < |disk| && cache[off] < |heap| && disk[off] == Flatten(tags[cache[off]]))
    }

    ghost predicate Fits(c: Cursor)
      reads this
    {
      c.At? ==> c.ptr < |heap| && c.ptr < |tags| && c.index <= |tags[c.ptr].path|
    }

    /** The cursor and code are those of the outcome. */
    ghost predicate Matches(c: Cursor, code: Code, o: Outcome)
      reads this
    {
      c.At? && c.ptr < |tags| && tags[c.ptr] == o.node && c.index == o.index && code == o.code
    }

    /** Lookup can go on from the cursor with a part of the key that is left. */
    ghost predicate Resumes(c: Cursor, key: Key, o: Outcome)
      reads this
    {
      && c.At? && c.ptr < |tags| && c.index == |tags[c.ptr].path|
      && exists k: nat :: k < |key| && Find(tags[c.ptr], c.index, key[k..]) == o
    }

    lemma ResumesHere(c: Cursor, key: Key, k: nat, o: Outcome)
      requires c.At? && c.ptr < |tags| && c.index == |tags[c.ptr].path| && k < |key|
      requires Find(tags[c.ptr], c.index, key[k..]) == o
      ensures Resumes(c, key, o)
    {
    }

    lemma ResumesLater(c: Cursor, key: Key, k: nat, o: Outcome)
      requires k <= |key| && Resumes(c, key[k..], o)
      ensures Resumes(c, key, o)
    {
      var j: nat :| j < |key[k..]| && Find(tags[c.ptr], c.index, key[k..][j..]) == o;
      assert key[k..][j..] == key[k + j..];
    }

    constructor (disk: Store, root: Flat, ghost trie: Node)
      requires root == Flatten(trie) && OnDisk(disk, trie)
      ensures Valid() && this.disk == disk && tags == [trie] && |heap| == 1
    {
      this.disk := disk;
      heap := [MemNode(root, map[])];
      cache := map[];
      tags := [trie];
    }

    /** Deserialize the child of `p` at branch `b` from disk into a new in-memory node. */
    method ReadChild(p: Ptr, b: Nibble) returns (q: Ptr)
      requires Valid() && p < |heap| && b in heap[p].flat.kids
      modifies this`heap, this`tags
      ensures Valid() && old(tags) <= tags && q < |heap| && b in old(tags)[p].kids
              && tags[q] == old(tags)[p].kids[b].node
      ensures |heap| == |old(heap)| + 1 && old(heap) <= heap && q == |old(heap)| && Grows(old(heap), heap)
    {
      assert Holds(p);
      q := |heap|;
      heap := heap + [MemNode(disk[heap[p].flat.kids[b].0], map[])];
      tags := tags + [tags[p].kids[b].node];
      forall r | 0 <= r < |heap| ensures Holds(r) {
        if r < q {
          assert old(Holds(r));
        }
      }
    }

    /** `set_next`: remember an in-memory child. */
    method SetNext(p: Ptr, b: Nibble, q: Ptr)
      requires Valid() && p < |heap| && q < |heap| && b in tags[p].kids && tags[q] == tags[p].kids[b].node
      requires b !in heap[p].next
      modifies this`heap
      ensures Valid() && heap == old(heap)[p := MemNode(old(heap)[p].flat, old(heap)[p].next[b := q])]
      ensures Grows(old(heap), heap)
    {
      heap := heap[p := MemNode(heap[p].flat, heap[p].next[b := q])];
      forall r | 0 <= r < |heap| ensures Holds(r) {
        assert old(Holds(r));
      }
    }

    /** The child at a branch, read and remembered if it is not in memory. */
    method NextChild(p: Ptr, b: Nibble) returns (q: Ptr)
      requires Valid() && p < |heap| && b in heap[p].flat.kids
      modifies this`heap, this`tags
      ensures Valid() && old(tags) <= tags && q < |heap| && b in old(tags)[p].kids
      ensures tags[q] == old(tags)[p].kids[b].node
      ensures Grows(old(heap), heap) && b in heap[p].next && q == heap[p].next[b]
      ensures b in old(heap)[p].next ==> heap == old(heap)
    {
      assert Holds(p);
      if b !in heap[p].next {
        var r := ReadChild(p, b);
        SetNext(p, b, r);
      }
      assert Holds(p);
      q := heap[p].next[b];
    }

    /** The blocking lookup.  Children that are not in memory are read and kept; a read on an
        expired version fails. */
    method FindBlocking(root: Cursor, key: Key, alive: bool) returns (c: Cursor, code: Code)
      requires Valid() && Fits(root)
      modifies this`heap, this`tags
      ensures Valid() && old(tags) <= tags
      ensures root.Null? ==> c.Null? && code == RootNull
      ensures root.At? ==>
                || Matches(c, code, Find(old(tags)[root.ptr], root.index, key))
                || (!alive && c.Null? && code == VersionGone)
      ensures root.At? ==> (code == VersionGone <==> !alive && !InMemory(old(heap), root.ptr, root.index, key))
      ensures root.At? && InMemory(old(heap), root.ptr, root.index, key) ==> heap == old(heap)
      ensures Grows(old(heap), heap)
      ensures root.At? && code != VersionGone ==> InMemory(heap, root.ptr, root.index, key)
    {
      if root.Null? {
        return Null, RootNull;
      }
      var node: Ptr, nodeIndex: nat, index: nat := root.ptr, root.index, 0;
      ghost var all := InMemory(heap, root.ptr, root.index, key);
      assert key[0..] == key;
      while index < |key|
        invariant Valid() && old(tags) <= tags && index <= |key|
        invariant node < |tags| && nodeIndex <= |tags[node].path|
        invariant Find(tags[node], nodeIndex, key[index..]) == Find(old(tags)[root.ptr], root.index, key)
        invariant Grows(old(heap), heap) && Leads(heap, root.ptr, root.index, key, node, nodeIndex, key[index..])
        invariant (heap == old(heap) && (all <==> InMemory(heap, node, nodeIndex, key[index..]))) || (alive && !all)
      {
        assert Holds(node);
        assert key[index..][1..] == key[index + 1..];
        var nibble := key[index];
        if |heap[node].flat.path| == nodeIndex {
          if nibble !in heap[node].flat.kids {
            return At(node, nodeIndex), BranchNotExist;
          }
          if nibble !in heap[node].next && !alive {
            return Null, VersionGone;
          }
          ghost var before, h := node, heap;
          node := NextChild(node, nibble);
          LeadsOn(h, heap, root.ptr, root.index, key, before, nodeIndex, key[index..]);
          LeadsStep(heap, root.ptr, root.index, key, before, nodeIndex, key[index..], node, 0);
          GrowsOn(old(heap), h, heap);
          nodeIndex := 0;
          index := index + 1;
        } else {
          if nibble != heap[node].flat.path[nodeIndex] {
            return At(node, nodeIndex), KeyMismatch;
          }
          LeadsStep(heap, root.ptr, root.index, key, node, nodeIndex, key[index..], node, nodeIndex + 1);
          index := index + 1;
          nodeIndex := nodeIndex + 1;
        }
      }
      assert Holds(node);
      if nodeIndex != |heap[node].flat.path| {
        return At(node, nodeIndex), KeyEndsEarlier;
      }
      return At(node, nodeIndex), Success;
    }

    /** Match the key against the rest of a node's path. */
    method MatchPath(node: Ptr, start: nat, key: Key) returns (nodeIndex: nat, index: nat, code: Code)
      requires Valid() && node < |heap| && start <= |tags[node].path|
      ensures start <= nodeIndex <= |tags[node].path| && index == nodeIndex - start <= |key|
      ensures code != Success ==> Find(tags[node], start, key) == Outcome(code, tags[node], nodeIndex)
      ensures code == Success ==>
              nodeIndex == |tags[node].path|
                && Find(tags[node], start, key) == Find(tags[node], nodeIndex, key[index..])
      ensures code in {Success, KeyEndsEarlier, KeyMismatch}
      ensures InMemory(heap, node, start, key) <==> (code == Success ==> InMemory(heap, node, nodeIndex, key[index..]))
      ensures code == Success ==> Leads(heap, node, start, key, node, nodeIndex, key[index..])
      ensures Passes(tags[node], start, key)
              == if code == Success then Passes(tags[node], nodeIndex, key[index..]) else {}
    {
      assert Holds(node);
      nodeIndex, index := start, 0;
      assert key[0..] == key;
      while nodeIndex < |heap[node].flat.path|
        invariant start <= nodeIndex <= |tags[node].path| && index == nodeIndex - start <= |key|
        invariant Find(tags[node], start, key) == Find(tags[node], nodeIndex, key[index..])
        invariant InMemory(heap, node, start, key) <==> InMemory(heap, node, nodeIndex, key[index..])
        invariant Leads(heap, node, start, key, node, nodeIndex, key[index..])
        invariant Passes(tags[node], start, key) == Passes(tags[node], nodeIndex, key[index..])
      {
        if index >= |key| {
          return nodeIndex, index, KeyEndsEarlier;
        }
        if key[index] != heap[node].flat.path[nodeIndex] {
          return nodeIndex, index, KeyMismatch;
        }
        assert key[index..][1..] == key[index + 1..];
        LeadsStep(heap, node, start, key, node, nodeIndex, key[index..], node, nodeIndex + 1);
        nodeIndex, index := nodeIndex + 1, index + 1;
      }
      code := Success;
    }

    /** The fiber lookup over in-memory children.  Off the I/O thread it stops at the first
        child that would have to be read. */
    method FindNotifyFiber(root: Cursor, key: Key, ioThread: bool) returns (c: Cursor, code: Code)
      requires Valid() && Fits(root)
      modifies this`heap, this`tags
      ensures Valid() && old(tags) <= tags
      ensures root.Null? ==> c.Null? && code == RootNull
      ensures root.At? ==>
                || Matches(c, code, Find(old(tags)[root.ptr], root.index, key))
                || (!ioThread && code == NeedIoThread)
      ensures root.At? && code == NeedIoThread ==> Resumes(c, key, Find(old(tags)[root.ptr], root.index, key))
      ensures root.At? ==> (code == NeedIoThread <==> !ioThread && !InMemory(old(heap), root.ptr, root.index, key))
      ensures root.At? && InMemory(old(heap), root.ptr, root.index, key) ==> heap == old(heap)
      ensures Grows(old(heap), heap)
      ensures root.At? && code != NeedIoThread ==> InMemory(heap, root.ptr, root.index, key)
      decreases |key|
    {
      if root.Null? {
        return Null, RootNull;
      }
      ghost var want, all := Find(tags[root.ptr], root.index, key), InMemory(heap, root.ptr, root.index, key);
      var node := root.ptr;
      var nodeIndex, index, matched := MatchPath(node, root.index, key);
      if matched != Success {
        return At(node, nodeIndex), matched;
      }
      if index == |key| {
        return At(node, nodeIndex), Success;
      }
      assert Holds(node);
      var branch := key[index];
      if branch !in heap[node].flat.kids {
        return At(node, nodeIndex), BranchNotExist;
      }
      assert key[index..][1..] == key[index + 1..];
      if branch !in heap[node].next && !ioThread {
        ResumesHere(At(node, nodeIndex), key, index, want);
        return At(node, nodeIndex), NeedIoThread;
      }
      assert all <==> branch in heap[node].next && InMemory(heap, heap[node].next[branch], 0, key[index + 1..]);
      var q := NextChild(node, branch);
      assert want == Find(tags[q], 0, key[index + 1..]);
      assert all || !ioThread ==> heap == old(heap) && (all <==> InMemory(heap, q, 0, key[index + 1..]));
      LeadsOn(old(heap), heap, node, root.index, key, node, nodeIndex, key[index..]);
      LeadsStep(heap, node, root.index, key, node, nodeIndex, key[index..], q, 0);
      ghost var h := heap;
      c, code := FindNotifyFiber(At(q, 0), key[index + 1..], ioThread);
      GrowsOn(old(heap), h, heap);
      if code == NeedIoThread {
        ResumesLater(c, key, index + 1, want);
      }
    }

    /** Look a child up in the cache, or read it and insert it. */
    method Cached(node: Ptr, branch: Nibble) returns (q: Ptr)
      requires Valid() && node < |heap| && branch in heap[node].flat.kids
      modifies this
      ensures Valid() && old(tags) <= tags && q < |heap|
      ensures branch in old(tags)[node].kids && tags[q] == old(tags)[node].kids[branch].node
      ensures var offset := old(tags)[node].kids[branch].offset;
              if offset in old(cache) then cache == old(cache) && heap == old(heap)
              else cache == old(cache)[offset := q]
      ensures old(tags)[node].kids[branch].offset in cache
    {
      assert Holds(node);
      var offset := heap[node].flat.kids[branch].0;
      if offset in cache {
        q := cache[offset];
        assert Holds(q);
        FlatDetermines(disk, tags[q], tags[node].kids[branch].node);
      } else {
        q := ReadChild(node, branch);
        cache := cache[offset := q];
      }
    }

    /** The fiber lookup over the node cache. */
    method FindOwningNotifyFiber(start: Cursor, key: Key, alive: bool, ioThread: bool) returns (c: Cursor, code: Code)
      requires Valid() && Fits(start)
      modifies this
      ensures Valid() && old(tags) <= tags
      ensures !alive ==> c == start && code == VersionGone
      ensures alive && start.Null? ==> c.Null? && code == RootNull
      ensures alive && start.At? ==>
                Matches(c, code, Find(old(tags)[start.ptr], start.index, key))
                  || (!ioThread && c.Null? && code == NeedIoThread)
      ensures alive && start.At? ==>
                var all := Passes(old(tags)[start.ptr], start.index, key) <= old(cache).Keys;
                (code == NeedIoThread <==> !ioThread && !all) && (all ==> heap == old(heap) && cache == old(cache))
      ensures old(cache).Keys <= cache.Keys
      ensures alive && start.At? && code != NeedIoThread ==>
                Passes(old(tags)[start.ptr], start.index, key) <= cache.Keys
      decreases |key|
    {
      if !alive {
        return start, VersionGone;
      }
      if start.Null? {
        return Null, RootNull;
      }
      var node := start.ptr;
      var nodeIndex, index, matched := MatchPath(node, start.index, key);
      if matched != Success {
        return At(node, nodeIndex), matched;
      }
      if index == |key| {
        return At(node, nodeIndex), Success;
      }
      assert Holds(node);
      var branch := key[index];
      if branch !in heap[node].flat.kids {
        return At(node, nodeIndex), BranchNotExist;
      }
      if heap[node].flat.kids[branch].0 !in cache && !ioThread {
        return Null, NeedIoThread;
      }
      assert key[index..][1..] == key[index + 1..];
      var q := Cached(node, branch);
      c, code := FindOwningNotifyFiber(At(q, 0), key[index + 1..], alive, ioThread);
    }

    /** The sender: an endless loop over the current root and the remaining key.  Only a
        success carries a node. */
    method FindRequestSender(root: Ptr, start: nat, key: Key, alive: bool, ioThread: bool)
      returns (c: Cursor, code: Code)
      requires Valid() && root < |heap| && start <= |tags[root].path|
      modifies this
      ensures Valid() && old(tags) <= tags
      ensures var o := Find(old(tags)[root], start, key);
              || (code == o.code && (if code == Success then Matches(c, code, o) else c.Null?))
              || (!alive && c.Null? && code == VersionGone) || (!ioThread && c.Null? && code == NeedIoThread)
      ensures var all := Passes(old(tags)[root], start, key);
              && (code == VersionGone <==> !alive && all != {})
              && (code == NeedIoThread <==> alive && !ioThread && !(all <= old(cache).Keys))
              && (code !in {VersionGone, NeedIoThread} ==> all <= cache.Keys)
    {
      var node: Ptr, from: nat, rest := root, start, key;
      ghost var all := Passes(tags[root], start, key);
      while true
        invariant Valid() && old(tags) <= tags
        invariant node < |heap| && from <= |tags[node].path|
        invariant Find(tags[node], from, rest) == Find(old(tags)[root], start, key)
        invariant !alive ==> Passes(tags[node], from, rest) == all
        invariant all <= cache.Keys + Passes(tags[node], from, rest)
        invariant !ioThread ==>
                    cache == old(cache) && (all <= cache.Keys <==> Passes(tags[node], from, rest) <= cache.Keys)
        decreases |rest|
      {
        var nodeIndex, index, matched := MatchPath(node, from, rest);
        if matched != Success {
          return Null, matched;
        }
        if index == |rest| {
          return At(node, nodeIndex), Success;
        }
        assert Holds(node);
        var branch := rest[index];
        if branch !in heap[node].flat.kids {
          return Null, BranchNotExist;
        }
        assert rest[index..][1..] == rest[index + 1..];
        rest := rest[index + 1..];
        if !alive {
          return Null, VersionGone;
        }
        if heap[node].flat.kids[branch].0 !in cache && !ioThread {
          return Null, NeedIoThread;
        }
        node := Cached(node, branch);
        from := 0;
      }
    }
  }
}
