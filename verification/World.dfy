/**
 What a reader shares with the writer: the disk by physical offset, the translation to virtual
 offsets, the valid versions and their roots.  The writer appends nodes under fresh virtual
 offsets, expires versions, and recycles chunks that no valid version reaches.
 */
module World {
  import opened Trie

  type Phys = Offset
  type Virt = nat
  type Version = nat

  /** `at` is the current translation.  `owner`, `home`, `roots` and `tries` record for good which physical offset
      a virtual offset was given to, what was written there, and what each version is. */
  datatype World = World(
    content: map<Phys, Flat>, at: map<Phys, Virt>, owner: map<Virt, Phys>, home: map<Virt, Flat>,
    live: set<Version>, roots: map<Version, Phys>, tries: map<Version, Node>)

  function Translate(w: World, p: Phys): Option<Virt> {
    if p in w.at then Some(w.at[p]) else None
  }

  /** The whole subtrie `n` is on disk, its top at `p`. */
  ghost predicate Placed(w: World, n: Node, p: Phys) {
    && p in w.at && w.at[p] in w.home && w.home[w.at[p]] == Flatten(n)
    && forall b :: b in n.kids ==> Placed(w, n.kids[b].node, n.kids[b].offset)
  }

  ghost predicate WorldOk(w: World) {
    && (forall p :: p in w.at ==> w.at[p] in w.owner && w.owner[w.at[p]] == p)
    && (forall p :: p in w.at && w.at[p] in w.home ==> p in w.content && w.content[p] == w.home[w.at[p]])
    && (forall v :: v in w.home ==> v in w.owner)
    && w.live <= w.tries.Keys == w.roots.Keys
    && (forall x :: x in w.live ==> Placed(w, w.tries[x], w.roots[x]))
  }

  ghost predicate Extends<K, V>(m: map<K, V>, m': map<K, V>) {
    forall k :: k in m ==> k in m' && m'[k] == m[k]
  }

  /** Node `m` sits at offset `q` in the trie `n` whose top is at `p`. */
  ghost predicate Sits(n: Node, p: Phys, m: Node, q: Phys) {
    (m == n && q == p) || exists b :: b in n.kids && Sits(n.kids[b].node, n.kids[b].offset, m, q)
  }

  /** No node of the trie is moved. */
  ghost predicate Stays(w: World, w': World, n: Node, p: Phys) {
    forall m, q :: Sits(n, p, m, q) ==> Translate(w', q) == Translate(w, q)
  }

  /** Anything the writer may do: a virtual offset, once given out, is never given out again; an expired version
      never comes back; what valid versions reach stays in place. */
  ghost predicate WriterStep(w: World, w': World) {
    && WorldOk(w')
    && Extends(w.owner, w'.owner) && Extends(w.home, w'.home) && Extends(w.roots, w'.roots)
    && Extends(w.tries, w'.tries)
    && (forall x :: x in w'.live && x in w.tries ==> x in w.live)
    && (forall p :: p in w'.at && w'.at[p] in w.owner ==> p in w.at && w.at[p] == w'.at[p])
    && (forall x :: x in w.live && x in w'.live && x in w.tries && x in w.roots ==>
        Stays(w, w', w.tries[x], w.roots[x]))
  }

  lemma StepExtends(w: World, w': World, w'': World)
    requires WorldOk(w) && WriterStep(w, w') && WriterStep(w', w'')
    ensures WriterStep(w, w'')
  {
    forall x | x in w.live && x in w''.live ensures Stays(w, w'', w.tries[x], w.roots[x]) {
      assert x in w'.live;
      StaysOn(w, w', w'', w.tries[x], w.roots[x]);
    }
  }

  lemma StaysOn(w: World, w': World, w'': World, n: Node, p: Phys)
    requires Stays(w, w', n, p) && Stays(w', w'', n, p)
    ensures Stays(w, w'', n, p)
  {
  }

  // ---------------------------------------------------------------- the writer's moves

  function Expire(w: World, x: Version): World {
    w.(live := w.live - {x})
  }

  /** The chunk holding `p` goes to the free list, or comes back from it under a new virtual offset. */
  function Recycle(w: World, p: Phys, v: Option<Virt>): World {
    if v == None then w.(at := w.at - {p}) else w.(at := w.at[p := v.value], owner := w.owner[v.value := p])
  }

  function WriteNode(w: World, p: Phys, n: Flat): World
    requires p in w.at
  {
    w.(content := w.content[p := n], home := w.home[w.at[p] := n])
  }

  function Publish(w: World, x: Version, n: Node, p: Phys): World {
    w.(live := w.live + {x}, tries := w.tries[x := n], roots := w.roots[x := p])
  }

  /** A subtrie stays placed when the translation and the written nodes of its offsets stay. */
  lemma {:induction false} PlacedStays(w: World, w': World, n: Node, p: Phys)
    requires Placed(w, n, p) && Extends(w.home, w'.home)
    requires Stays(w, w', n, p)
    ensures Placed(w', n, p)
  {
    assert Sits(n, p, n, p);
    assert Translate(w', p) == Translate(w, p);
    forall b | b in n.kids ensures Placed(w', n.kids[b].node, n.kids[b].offset) {
      forall m, q | Sits(n.kids[b].node, n.kids[b].offset, m, q) ensures Translate(w', q) == Translate(w, q) {
        assert Sits(n, p, m, q);
      }
      PlacedStays(w, w', n.kids[b].node, n.kids[b].offset);
    }
  }

  lemma {:induction false} SitsPlaced(w: World, n: Node, p: Phys, m: Node, q: Phys)
    requires Placed(w, n, p) && Sits(n, p, m, q)
    ensures Placed(w, m, q)
  {
    if !(m == n && q == p) {
      var b :| b in n.kids && Sits(n.kids[b].node, n.kids[b].offset, m, q);
      SitsPlaced(w, n.kids[b].node, n.kids[b].offset, m, q);
    }
  }

  lemma {:induction false} SitsKid(n: Node, p: Phys, m: Node, q: Phys, b: Nibble)
    requires Sits(n, p, m, q) && b in m.kids
    ensures Sits(n, p, m.kids[b].node, m.kids[b].offset)
  {
    if m == n && q == p {
      assert Sits(m.kids[b].node, m.kids[b].offset, m.kids[b].node, m.kids[b].offset);
    } else {
      var c :| c in n.kids && Sits(n.kids[c].node, n.kids[c].offset, m, q);
      SitsKid(n.kids[c].node, n.kids[c].offset, m, q, b);
    }
  }

  lemma SameTranslation(w: World, w': World, n: Node, p: Phys)
    requires w'.at == w.at
    ensures Stays(w, w', n, p)
  {
  }

  lemma ExpireIsWriterStep(w: World, x: Version)
    requires WorldOk(w)
    ensures WriterStep(w, Expire(w, x))
  {
    var w' := Expire(w, x);
    forall y | y in w'.live ensures Stays(w, w', w.tries[y], w.roots[y]) && Placed(w', w.tries[y], w.roots[y]) {
      SameTranslation(w, w', w.tries[y], w.roots[y]);
      PlacedStays(w, w', w.tries[y], w.roots[y]);
    }
  }

  /** Recycling an offset no valid version reaches, under a fresh virtual offset, is a writer step. */
  lemma RecycleIsWriterStep(w: World, p: Phys, v: Option<Virt>)
    requires WorldOk(w) && (v.Some? ==> v.value !in w.owner)
    requires forall x, m :: x in w.live ==> !Sits(w.tries[x], w.roots[x], m, p)
    ensures WriterStep(w, Recycle(w, p, v))
  {
    var w' := Recycle(w, p, v);
    forall x | x in w.live ensures Stays(w, w', w.tries[x], w.roots[x]) && Placed(w', w.tries[x], w.roots[x]) {
      RecycleStays(w, p, v, w.tries[x], w.roots[x]);
      PlacedStays(w, w', w.tries[x], w.roots[x]);
    }
  }

  lemma RecycleStays(w: World, p: Phys, v: Option<Virt>, n: Node, root: Phys)
    requires forall m :: !Sits(n, root, m, p)
    ensures Stays(w, Recycle(w, p, v), n, root)
  {
  }

  lemma WriteNodeIsWriterStep(w: World, p: Phys, n: Flat)
    requires WorldOk(w) && p in w.at && w.at[p] !in w.home
    ensures WriterStep(w, WriteNode(w, p, n))
  {
    var w' := WriteNode(w, p, n);
    forall x | x in w.live ensures Stays(w, w', w.tries[x], w.roots[x]) && Placed(w', w.tries[x], w.roots[x]) {
      SameTranslation(w, w', w.tries[x], w.roots[x]);
      PlacedStays(w, w', w.tries[x], w.roots[x]);
    }
  }

  lemma PublishIsWriterStep(w: World, x: Version, n: Node, p: Phys)
    requires WorldOk(w) && x !in w.tries && Placed(w, n, p)
    ensures WriterStep(w, Publish(w, x, n, p))
  {
    var w' := Publish(w, x, n, p);
    SameTranslation(w, w', n, p);
    PlacedStays(w, w', n, p);
    forall y | y in w.live ensures Stays(w, w', w.tries[y], w.roots[y]) && Placed(w', w.tries[y], w.roots[y]) {
      SameTranslation(w, w', w.tries[y], w.roots[y]);
      PlacedStays(w, w', w.tries[y], w.roots[y]);
    }
  }
}
