/**
 The RLP encoding of a branch node, written once from the list of children while the node is
 being created and once from the node made of them.
 */
module BranchEncoding {

  type Byte = b: nat | b < 256
  type Bytes = seq<Byte>

  const EMPTY_STRING: Byte := 0x80
  const HASH_SIZE: nat := 32
  const MAX_BRANCH_RLP_SIZE: nat := 532

  // ---------------------------------------------------------------- RLP, Appendix B of the Ethereum Yellow Paper

  function BigEndian(n: nat): Bytes {
    if n == 0 then [] else BigEndian(n / 256) + [n % 256]
  }

  function RlpString(s: Bytes): Bytes
    requires |BigEndian(|s|)| <= 8
  {
    if |s| == 1 && s[0] < 0x80 then s
    else if |s| <= 55 then [0x80 + |s|] + s
    else [0xB7 + |BigEndian(|s|)|] + BigEndian(|s|) + s
  }

  function ListHeader(n: nat): Bytes
    requires |BigEndian(n)| <= 8
  {
    if n <= 55 then [0xC0 + n] else [0xF7 + |BigEndian(n)|] + BigEndian(n)
  }

  function RlpList(payload: Bytes): Bytes
    requires |BigEndian(|payload|)| <= 8
  {
    ListHeader(|payload|) + payload
  }

  lemma ShortLength(n: nat)
    requires n < 65536
    ensures |BigEndian(n)| == if n == 0 then 0 else if n < 256 then 1 else 2
  {
    if n >= 256 {
      assert n / 256 / 256 == 0;
      assert BigEndian(n / 256 / 256) == [];
    } else if n > 0 {
      assert BigEndian(n / 256) == [];
    }
  }

  // ---------------------------------------------------------------- the encoding meant

  /** The references of a branch node by branch nibble. */
  type Refs = map<nat, Bytes>

  predicate Sound(refs: Refs) {
    forall b :: b in refs ==> b < 16 && |refs[b]| <= HASH_SIZE
  }

  /** One item of the list: a short reference is RLP already, a hash becomes a string. */
  function Item(ref: Bytes): (r: Bytes)
    requires |ref| <= HASH_SIZE
    ensures |r| <= 33
  {
    ShortLength(|ref|);
    if |ref| < HASH_SIZE then ref else RlpString(ref)
  }

  /** The items of the branches below `n`. */
  function Items(refs: Refs, n: nat): Bytes
    requires Sound(refs) && n <= 16
  {
    if n == 0 then [] else Items(refs, n - 1) + (if n - 1 in refs then Item(refs[n - 1]) else [EMPTY_STRING])
  }

  /** The payload of the list: sixteen items and the empty value. */
  function Payload(refs: Refs): Bytes
    requires Sound(refs)
  {
    Items(refs, 16) + [EMPTY_STRING]
  }

  lemma {:induction false} ItemsBound(refs: Refs, n: nat)
    requires Sound(refs) && n <= 16
    ensures |Items(refs, n)| <= 33 * n
    ensures (forall b: nat :: b < n ==> b in refs && |refs[b]| == HASH_SIZE) ==> |Items(refs, n)| == 33 * n
  {
    if n != 0 {
      ItemsBound(refs, n - 1);
      ShortLength(32);
    }
  }

  /** The buffers are large enough for every branch node, and no byte too large. */
  lemma PayloadFits(refs: Refs)
    requires Sound(refs)
    ensures |Payload(refs)| <= 529 && |BigEndian(|Payload(refs)|)| <= 8
            && |RlpList(Payload(refs))| <= MAX_BRANCH_RLP_SIZE
    ensures (forall b: nat :: b < 16 ==> b in refs && |refs[b]| == HASH_SIZE) ==>
            |RlpList(Payload(refs))| == MAX_BRANCH_RLP_SIZE
  {
    ItemsBound(refs, 16);
    ShortLength(|Payload(refs)|);
  }

  // ---------------------------------------------------------------- the bytes

  /** The number that bytes stand for, the most significant one first. */
  function Number(s: Bytes): nat {
    if s == [] then 0 else 256 * Number(s[..|s| - 1]) + s[|s| - 1]
  }

  /** A length is written in base 256, without leading zeros. */
  lemma {:induction false} BigEndianReads(n: nat)
    ensures Number(BigEndian(n)) == n && (n != 0 ==> BigEndian(n) != [] && BigEndian(n)[0] != 0)
  {
    if n != 0 {
      BigEndianReads(n / 256);
      var s := BigEndian(n);
      assert s[..|s| - 1] == BigEndian(n / 256);
    }
  }

  /** The bytes in front of a list with up to 65535 bytes of payload. */
  lemma HeaderBytes(n: nat)
    requires n < 65536
    ensures |BigEndian(n)| <= 8
    ensures ListHeader(n) == if n <= 55 then [0xC0 + n] else if n < 256 then [0xF8, n] else [0xF9, n / 256, n % 256]
  {
    ShortLength(n);
    BigEndianReads(n);
    if n >= 256 {
      ShortLength(n / 256);
      assert n / 256 / 256 == 0;
      assert BigEndian(n / 256) == BigEndian(0) + [n / 256];
    } else if n > 0 {
      assert BigEndian(n / 256) == [];
    }
  }

  /** What branch `b` contributes: a short reference as it is, a hash behind its length byte 0xa0, and the empty string
      0x80 where there is no child. */
  function BranchItem(refs: Refs, b: nat): Bytes {
    if b !in refs then [0x80] else if |refs[b]| < 32 then refs[b] else [0xA0] + refs[b]
  }

  /** Where the item of branch `b` starts: behind all those before it. */
  function Start(refs: Refs, b: nat): nat {
    if b == 0 then 0 else Start(refs, b - 1) + |BranchItem(refs, b - 1)|
  }

  predicate Holds(s: Bytes, at: nat, item: Bytes) {
    at + |item| <= |s| && s[at..at + |item|] == item
  }

  lemma HoldsMore(s: Bytes, at: nat, item: Bytes, rest: Bytes)
    requires Holds(s, at, item)
    ensures Holds(s + rest, at, item)
  {
    assert (s + rest)[at..at + |item|] == s[at..at + |item|];
  }

  lemma HoldsBehind(front: Bytes, s: Bytes, at: nat, item: Bytes)
    requires Holds(s, at, item)
    ensures Holds(front + s, |front| + at, item)
  {
    assert (front + s)[|front| + at..|front| + at + |item|] == s[at..at + |item|];
  }

  lemma ItemIs(refs: Refs, b: nat)
    requires Sound(refs)
    ensures (if b in refs then Item(refs[b]) else [EMPTY_STRING]) == BranchItem(refs, b)
  {
    ShortLength(32);
  }

  /** The last of the items. */
  lemma LastItem(refs: Refs, n: nat)
    requires Sound(refs) && n < 16
    ensures Items(refs, n + 1) == Items(refs, n) + BranchItem(refs, n)
    ensures Holds(Items(refs, n + 1), |Items(refs, n)|, BranchItem(refs, n))
  {
    ItemIs(refs, n);
    HoldsBehind(Items(refs, n), BranchItem(refs, n), 0, BranchItem(refs, n));
  }

  lemma {:induction false} ItemsLength(refs: Refs, n: nat)
    requires Sound(refs) && n <= 16
    ensures |Items(refs, n)| == Start(refs, n)
  {
    if n != 0 {
      ItemsLength(refs, n - 1);
      LastItem(refs, n - 1);
    }
  }

  lemma {:induction false} ItemsAt(refs: Refs, n: nat, b: nat)
    requires Sound(refs) && b < n <= 16
    ensures Holds(Items(refs, n), Start(refs, b), BranchItem(refs, b))
    decreases n
  {
    if b == n - 1 {
      ItemsLength(refs, b);
      LastItem(refs, b);
    } else {
      ItemsAt(refs, n - 1, b);
      LastItem(refs, n - 1);
      HoldsMore(Items(refs, n - 1), Start(refs, b), BranchItem(refs, b), BranchItem(refs, n - 1));
    }
  }

  /** Every branch of the payload, and the empty value behind them. */
  lemma PayloadBytes(refs: Refs, b: nat)
    requires Sound(refs) && b < 16
    ensures |Payload(refs)| == Start(refs, 16) + 1 && Payload(refs)[Start(refs, 16)] == 0x80
    ensures var p, at := Payload(refs), Start(refs, b);
            if b !in refs then Holds(p, at, [0x80])
            else if |refs[b]| < 32 then Holds(p, at, refs[b]) else Holds(p, at, [0xA0] + refs[b])
  {
    ItemsLength(refs, 16);
    ItemsAt(refs, 16, b);
    HoldsMore(Items(refs, 16), Start(refs, b), BranchItem(refs, b), [EMPTY_STRING]);
  }

  /** In front of it the header of the list. */
  lemma ListBytes(refs: Refs)
    requires Sound(refs)
    ensures |BigEndian(|Payload(refs)|)| <= 8
    ensures var n := |Payload(refs)|;
            RlpList(Payload(refs)) == (if n <= 55 then [0xC0 + n] else if n < 256 then [0xF8, n]
                                       else [0xF9, n / 256, n % 256]) + Payload(refs)
  {
    PayloadFits(refs);
    HeaderBytes(|Payload(refs)|);
  }

  // ---------------------------------------------------------------- writing to a buffer

  /** Copy bytes to a position of a buffer; the position after them is returned. */
  method Put(buf: array<Byte>, pos: nat, bytes: Bytes) returns (next: nat)
    requires pos + |bytes| <= buf.Length
    modifies buf
    ensures next == pos + |bytes| && buf[..next] == old(buf[..pos]) + bytes
  {
    for i := 0 to |bytes|
      invariant buf[..pos + i] == old(buf[..pos]) + bytes[..i]
    {
      buf[pos + i] := bytes[i];
    }
    next := pos + |bytes|;
  }

  method PutReference(buf: array<Byte>, pos: nat, ref: Bytes) returns (next: nat)
    requires |ref| <= HASH_SIZE && pos + 33 <= buf.Length
    modifies buf
    ensures pos <= next <= pos + 33 && buf[..next] == old(buf[..pos]) + Item(ref)
  {
    ShortLength(|ref|);
    if |ref| < HASH_SIZE {
      next := Put(buf, pos, ref);
    } else {
      assert Item(ref) == [0xA0] + ref;
      next := Put(buf, pos, [0x80 + |ref|]);
      next := Put(buf, next, ref);
    }
  }

  // ---------------------------------------------------------------- from the list of children

  /** What is known of a child while its parent is built; an erased child stays in the list but is not valid. */
  datatype Child = Child(valid: bool, branch: nat, data: Bytes)

  predicate Ascending(children: seq<Child>) {
    && (forall k :: 0 <= k < |children| && children[k].valid ==>
        children[k].branch < 16 && |children[k].data| <= HASH_SIZE)
    && (forall j, k :: 0 <= j < k < |children| && children[j].valid && children[k].valid ==>
        children[j].branch < children[k].branch)
  }

  /** The references of the first `n` children. */
  function RefsOf(children: seq<Child>, n: nat): Refs
    requires n <= |children|
  {
    if n == 0 then map[]
    else if children[n - 1].valid then RefsOf(children, n - 1)[children[n - 1].branch := children[n - 1].data]
    else RefsOf(children, n - 1)
  }

  lemma {:induction false} RefsOfMeaning(children: seq<Child>, n: nat)
    requires Ascending(children) && n <= |children|
    ensures Sound(RefsOf(children, n))
    ensures forall k :: 0 <= k < n && children[k].valid ==>
                          children[k].branch in RefsOf(children, n)
                            && RefsOf(children, n)[children[k].branch] == children[k].data
    ensures forall b :: b in RefsOf(children, n) ==>
            exists k :: 0 <= k < n && children[k].valid && children[k].branch == b
  {
    if n != 0 {
      RefsOfMeaning(children, n - 1);
    }
  }

  /** Items below `n` only depend on the references below `n`. */
  lemma {:induction false} ItemsLocal(refs: Refs, refs': Refs, n: nat)
    requires Sound(refs) && Sound(refs') && n <= 16
    requires forall b: nat :: b < n ==> (b in refs <==> b in refs') && (b in refs ==> refs[b] == refs'[b])
    ensures Items(refs, n) == Items(refs', n)
  {
    if n != 0 {
      ItemsLocal(refs, refs', n - 1);
    }
  }

  /** Empty strings for the branches from `n` up to `to`, none of which has a child. */
  method PutEmpty(buf: array<Byte>, pos: nat, n: nat, to: nat, ghost refs: Refs, ghost base: Bytes) returns (next: nat)
    requires Sound(refs) && n <= to <= 16 && pos + (to - n) <= buf.Length
    requires forall b: nat :: n <= b < to ==> b !in refs
    requires buf[..pos] == base + Items(refs, n)
    modifies buf
    ensures next == pos + (to - n) && buf[..next] == base + Items(refs, to)
  {
    next := pos;
    var i := n;
    while i < to
      invariant n <= i <= to && next == pos + (i - n) && buf[..next] == base + Items(refs, i)
    {
      ghost var before := buf[..next];
      buf[next] := EMPTY_STRING;
      assert buf[..next + 1] == before + [EMPTY_STRING];
      next := next + 1;
      i := i + 1;
    }
  }

  /** One child of the first encoder: the gap before its branch, then its reference. */
  method PutChild(buf: array<Byte>, pos: nat, i: nat, b: nat, ref: Bytes, ghost refs: Refs) returns (next: nat)
    requires Sound(refs) && i <= b < 16 && b in refs && refs[b] == ref && pos <= 33 * i && 528 <= buf.Length
    requires forall c: nat :: i <= c < b ==> c !in refs
    requires buf[..pos] == Items(refs, i)
    modifies buf
    ensures next <= 33 * (b + 1) && buf[..next] == Items(refs, b + 1)
  {
    assert buf[..pos] == [] + Items(refs, i);
    next := PutEmpty(buf, pos, i, b, refs, []);
    assert buf[..next] == Items(refs, b);
    next := PutReference(buf, next, ref);
  }

  /** Which children are left says which branches are left. */
  lemma NoneBetween(children: seq<Child>, k: nat, i: nat, to: nat)
    requires Ascending(children) && k <= |children|
    requires forall j :: 0 <= j < |children| && children[j].valid ==> (j < k <==> children[j].branch < i)
    requires forall j :: k <= j < |children| && children[j].valid ==> to <= children[j].branch
    ensures forall c: nat :: i <= c < to ==> c !in RefsOf(children, |children|)
  {
    RefsOfMeaning(children, |children|);
  }

  /** The first encoder walks the children and fills the gaps between their branches. */
  method EncodeChildren(children: seq<Child>, buf: array<Byte>) returns (next: nat)
    requires Ascending(children) && 528 <= buf.Length
    modifies buf
    ensures Sound(RefsOf(children, |children|))
    ensures next <= 528 && buf[..next] == Items(RefsOf(children, |children|), 16)
  {
    ghost var refs := RefsOf(children, |children|);
    RefsOfMeaning(children, |children|);
    var i := 0;
    next := 0;
    assert buf[..0] == Items(refs, 0);
    for k := 0 to |children|
      invariant i <= 16 && next <= 33 * i && buf[..next] == Items(refs, i)
      invariant forall j :: 0 <= j < |children| && children[j].valid ==> (j < k <==> children[j].branch < i)
    {
      if children[k].valid {
        NoneBetween(children, k, i, children[k].branch);
        next := PutChild(buf, next, i, children[k].branch, children[k].data, refs);
        i := children[k].branch + 1;
      }
    }
    NoneBetween(children, |children|, i, 16);
    assert buf[..next] == [] + Items(refs, i);
    next := PutEmpty(buf, next, i, 16, refs, []);
    assert [] + Items(refs, 16) == Items(refs, 16);
  }

  // ---------------------------------------------------------------- the node and its child data

  /** A branch node: a mask of branches, the end of each child's data, and the data itself. */
  datatype BranchNode = BranchNode(mask: set<nat>, ends: seq<nat>, data: Bytes)

  /** How many branches of the mask are below `b`. */
  function Below(mask: set<nat>, b: nat): nat {
    if b == 0 then 0 else Below(mask, b - 1) + if b - 1 in mask then 1 else 0
  }

  function ChildDataOffset(n: BranchNode, index: nat): nat
    requires index <= |n.ends|
  {
    if index == 0 then 0 else n.ends[index - 1]
  }

  predicate HasView(n: BranchNode, index: nat) {
    index < |n.ends| && ChildDataOffset(n, index) <= n.ends[index] <= |n.data|
  }

  function ChildDataView(n: BranchNode, index: nat): Bytes
    requires HasView(n, index)
  {
    n.data[ChildDataOffset(n, index)..n.ends[index]]
  }

  predicate NodeOk(n: BranchNode) {
    forall b :: b in n.mask ==>
      b < 16 && HasView(n, Below(n.mask, b)) && |ChildDataView(n, Below(n.mask, b))| <= HASH_SIZE
  }

  function NodeRefs(n: BranchNode): Refs
    requires NodeOk(n)
  {
    map b | b in n.mask :: ChildDataView(n, Below(n.mask, b))
  }

  /** The second encoder walks the sixteen branches. */
  method EncodeNode(n: BranchNode, buf: array<Byte>) returns (next: nat)
    requires NodeOk(n) && 528 <= buf.Length
    modifies buf
    ensures next <= 528 && buf[..next] == Items(NodeRefs(n), 16)
  {
    next := 0;
    assert buf[..0] == Items(NodeRefs(n), 0);
    for i := 0 to 16
      invariant next <= 33 * i && buf[..next] == Items(NodeRefs(n), i)
    {
      if i in n.mask {
        next := PutReference(buf, next, ChildDataView(n, Below(n.mask, i)));
      } else {
        next := Put(buf, next, [EMPTY_STRING]);
      }
    }
  }

  /** The data of the valid children among the first `n`, in order. */
  function Dense(children: seq<Child>, n: nat): seq<Bytes>
    requires n <= |children|
  {
    if n == 0 then []
    else if children[n - 1].valid then Dense(children, n - 1) + [children[n - 1].data]
    else Dense(children, n - 1)
  }

  function Join(d: seq<Bytes>): Bytes {
    if d == [] then [] else Join(d[..|d| - 1]) + d[|d| - 1]
  }

  function Ends(d: seq<Bytes>): (e: seq<nat>)
    ensures |e| == |d|
  {
    if d == [] then [] else Ends(d[..|d| - 1]) + [|Join(d)|]
  }

  lemma {:induction false} SliceOfJoin(d: seq<Bytes>, m: nat)
    requires m < |d|
    ensures var from := if m == 0 then 0 else Ends(d)[m - 1];
            from <= Ends(d)[m] <= |Join(d)| && Join(d)[from..Ends(d)[m]] == d[m]
    decreases |d|
  {
    var rest := d[..|d| - 1];
    if m < |rest| {
      SliceOfJoin(rest, m);
      assert Ends(d)[m] == Ends(rest)[m];
      assert Join(d)[..|Join(rest)|] == Join(rest);
      var from := if m == 0 then 0 else Ends(rest)[m - 1];
      assert Join(d)[from..Ends(d)[m]] == Join(rest)[from..Ends(rest)[m]];
    } else if m > 0 {
      assert rest != [];
      assert Ends(d)[m - 1] == Ends(rest)[m - 1] == |Join(rest)|;
      assert Join(d)[|Join(rest)|..|Join(d)|] == d[m];
    } else {
      assert rest == [];
      assert Join(d)[0..|Join(d)|] == d[0];
    }
  }

  lemma {:induction false} BelowAgree(m: set<nat>, m': set<nat>, b: nat)
    requires forall c: nat :: c < b ==> (c in m <==> c in m')
    ensures Below(m, b) == Below(m', b)
  {
    if b != 0 {
      BelowAgree(m, m', b - 1);
    }
  }

  lemma {:induction false} BelowGap(m: set<nat>, a: nat, b: nat)
    requires a <= b && forall c: nat :: a <= c < b ==> c !in m
    ensures Below(m, b) == Below(m, a)
  {
    if a < b {
      BelowGap(m, a, b - 1);
    }
  }

  /** The rank of a branch in the mask is the place of its child among the valid ones. */
  lemma {:induction false} DenseAt(children: seq<Child>, n: nat, top: nat)
    requires Ascending(children) && n <= |children|
    requires forall k :: 0 <= k < n && children[k].valid ==> children[k].branch < top
    ensures |Dense(children, n)| == Below(RefsOf(children, n).Keys, top)
    ensures forall k :: 0 <= k < n && children[k].valid ==> DenseHolds(children, n, k)
  {
    var mask := RefsOf(children, n).Keys;
    if n == 0 {
      BelowGap(mask, 0, top);
    } else if children[n - 1].valid {
      DenseAt(children, n - 1, children[n - 1].branch);
      DenseStep(children, n, top);
    } else {
      DenseAt(children, n - 1, top);
      forall k | 0 <= k < n - 1 && children[k].valid ensures DenseHolds(children, n, k) {
        assert DenseHolds(children, n - 1, k);
      }
    }
  }

  lemma DenseStep(children: seq<Child>, n: nat, top: nat)
    requires Ascending(children) && 0 < n <= |children| && children[n - 1].valid && children[n - 1].branch < top
    requires |Dense(children, n - 1)| == Below(RefsOf(children, n - 1).Keys, children[n - 1].branch)
    requires forall k :: 0 <= k < n - 1 && children[k].valid ==> DenseHolds(children, n - 1, k)
    ensures |Dense(children, n)| == Below(RefsOf(children, n).Keys, top)
    ensures forall k :: 0 <= k < n && children[k].valid ==> DenseHolds(children, n, k)
  {
    var b := children[n - 1].branch;
    RefsOfMeaning(children, n - 1);
    var mask0, mask := RefsOf(children, n - 1).Keys, RefsOf(children, n).Keys;
    assert mask == mask0 + {b};
    BelowAgree(mask0, mask, b);
    BelowGap(mask, b + 1, top);
    forall k | 0 <= k < n - 1 && children[k].valid ensures DenseHolds(children, n, k) {
      assert DenseHolds(children, n - 1, k);
      BelowAgree(mask0, mask, children[k].branch);
    }
  }

  lemma {:induction false} BelowBound(mask: set<nat>, b: nat)
    ensures Below(mask, b) <= b
  {
    if b != 0 {
      BelowBound(mask, b - 1);
    }
  }

  lemma {:induction false} JoinBound(children: seq<Child>, n: nat)
    requires Ascending(children) && n <= |children|
    ensures |Join(Dense(children, n))| <= 32 * |Dense(children, n)|
  {
    if n != 0 {
      JoinBound(children, n - 1);
      var d := Dense(children, n);
      if children[n - 1].valid {
        assert d[..|d| - 1] == Dense(children, n - 1);
      }
    }
  }

  predicate DenseHolds(children: seq<Child>, n: nat, k: nat)
    requires k < n <= |children|
  {
    var index := Below(RefsOf(children, n).Keys, children[k].branch);
    index < |Dense(children, n)| && Dense(children, n)[index] == children[k].data
  }

  method MakeNode(mask: set<nat>, children: seq<Child>) returns (n: BranchNode)
    requires Ascending(children) && mask == RefsOf(children, |children|).Keys
    ensures NodeOk(n) && NodeRefs(n) == RefsOf(children, |children|)
    ensures |n.data| <= 512 && forall e :: e in n.ends ==> e < 0x10000
  {
    var ends: seq<nat> := [];
    var total := 0;
    for k := 0 to |children|
      invariant ends == Ends(Dense(children, k)) && total == |Join(Dense(children, k))|
    {
      if children[k].valid {
        assert Dense(children, k + 1)[..|Dense(children, k)|] == Dense(children, k);
        total := total + |children[k].data|;
        ends := ends + [total];
      }
    }
    var region := new Byte[total](_ => 0);
    var pos := 0;
    for k := 0 to |children|
      invariant pos == |Join(Dense(children, k))| <= total && region[..pos] == Join(Dense(children, k))
    {
      if children[k].valid {
        assert Dense(children, k + 1)[..|Dense(children, k)|] == Dense(children, k);
        JoinGrows(children, k + 1, |children|);
        pos := Put(region, pos, children[k].data);
      }
    }
    assert region[..] == region[..pos];
    n := BranchNode(mask, ends, region[..]);
    MadeNode(children, n);
    MadeSize(children);
  }

  lemma {:induction false} JoinGrows(children: seq<Child>, k: nat, n: nat)
    requires k <= n <= |children|
    ensures |Join(Dense(children, k))| <= |Join(Dense(children, n))|
  {
    if k < n {
      JoinGrows(children, k, n - 1);
      var d, d0 := Dense(children, n), Dense(children, n - 1);
      if children[n - 1].valid {
        assert d[..|d| - 1] == d0;
      }
    }
  }

  /** Sixteen references of a hash each at most: the 16-bit offsets do not wrap. */
  lemma MadeSize(children: seq<Child>)
    requires Ascending(children)
    ensures |Join(Dense(children, |children|))| <= 512
    ensures forall e :: e in Ends(Dense(children, |children|)) ==> e < 0x10000
  {
    var d := Dense(children, |children|);
    DenseAt(children, |children|, 16);
    BelowBound(RefsOf(children, |children|).Keys, 16);
    JoinBound(children, |children|);
    forall m | 0 <= m < |d| ensures Ends(d)[m] <= 512 {
      SliceOfJoin(d, m);
    }
  }

  lemma ViewOfJoin(n: BranchNode, d: seq<Bytes>, m: nat)
    requires n.ends == Ends(d) && n.data == Join(d) && m < |d|
    ensures HasView(n, m) && ChildDataView(n, m) == d[m]
  {
    SliceOfJoin(d, m);
  }

  lemma DenseOf(children: seq<Child>, k: nat)
    requires Ascending(children) && k < |children| && children[k].valid
    ensures DenseHolds(children, |children|, k)
  {
    DenseAt(children, |children|, 16);
  }

  lemma MadeView(children: seq<Child>, n: BranchNode, k: nat)
    requires Ascending(children) && n.mask == RefsOf(children, |children|).Keys && k < |children| && children[k].valid
    requires n.ends == Ends(Dense(children, |children|)) && n.data == Join(Dense(children, |children|))
    ensures var index := Below(n.mask, children[k].branch);
            HasView(n, index) && ChildDataView(n, index) == children[k].data
  {
    DenseOf(children, k);
    ViewOfJoin(n, Dense(children, |children|), Below(n.mask, children[k].branch));
  }

  lemma MadeNode(children: seq<Child>, n: BranchNode)
    requires Ascending(children) && n.mask == RefsOf(children, |children|).Keys
    requires n.ends == Ends(Dense(children, |children|)) && n.data == Join(Dense(children, |children|))
    ensures NodeOk(n) && NodeRefs(n) == RefsOf(children, |children|)
  {
    var refs := RefsOf(children, |children|);
    RefsOfMeaning(children, |children|);
    forall b | b in n.mask ensures HasView(n, Below(n.mask, b)) && ChildDataView(n, Below(n.mask, b)) == refs[b] {
      var k :| 0 <= k < |children| && children[k].valid && children[k].branch == b;
      MadeView(children, n, k);
    }
  }

  // ---------------------------------------------------------------- the list

  /** The list header.  The length is stored as eight bytes at once, of which the unused ones are overwritten later. */
  method PutListHeader(buf: array<Byte>, n: nat) returns (next: nat)
    requires |BigEndian(n)| <= 8 && 9 <= buf.Length
    modifies buf
    ensures next == |ListHeader(n)| <= buf.Length && buf[..next] == ListHeader(n)
  {
    if n <= 55 {
      next := Put(buf, 0, [0xC0 + n]);
    } else {
      var length := BigEndian(n);
      var bytes := [0xF7 + |length|] + length + seq(8 - |length|, _ => 0);
      var end := Put(buf, 0, bytes);
      next := 1 + |length|;
      assert buf[..next] == buf[..end][..next] == bytes[..next];
    }
  }

  method EncodeList(buf: array<Byte>, payload: Bytes) returns (next: nat)
    requires |BigEndian(|payload|)| <= 8 && |RlpList(payload)| <= buf.Length && 9 <= buf.Length
    modifies buf
    ensures next == |RlpList(payload)| && buf[..next] == RlpList(payload)
  {
    next := PutListHeader(buf, |payload|);
    next := Put(buf, next, payload);
  }

  method FinishBranch(str: array<Byte>, next: nat, ghost refs: Refs) returns (rlp: Bytes)
    requires Sound(refs) && str.Length == MAX_BRANCH_RLP_SIZE && next <= 528 && str[..next] == Items(refs, 16)
    modifies str
    ensures |BigEndian(|Payload(refs)|)| <= 8 && rlp == RlpList(Payload(refs)) && |rlp| <= MAX_BRANCH_RLP_SIZE
  {
    PayloadFits(refs);
    var end := Put(str, next, [EMPTY_STRING]);
    var list := new Byte[MAX_BRANCH_RLP_SIZE](_ => 0);
    var size := EncodeList(list, str[..end]);
    rlp := list[..size];
  }

  /** The encoding used when a node with a value is created, from its children. */
  method ComputeNodeData(children: seq<Child>) returns (rlp: Bytes)
    requires Ascending(children)
    ensures Sound(RefsOf(children, |children|)) && |BigEndian(|Payload(RefsOf(children, |children|))|)| <= 8
    ensures rlp == RlpList(Payload(RefsOf(children, |children|))) && |rlp| <= MAX_BRANCH_RLP_SIZE
  {
    var str := new Byte[MAX_BRANCH_RLP_SIZE](_ => 0);
    var next := EncodeChildren(children, str);
    rlp := FinishBranch(str, next, RefsOf(children, |children|));
  }

  /** The encoding used when a reference to an existing node is computed. */
  method ComputeBranchReference(n: BranchNode) returns (rlp: Bytes)
    requires NodeOk(n)
    ensures Sound(NodeRefs(n)) && |BigEndian(|Payload(NodeRefs(n))|)| <= 8
    ensures rlp == RlpList(Payload(NodeRefs(n))) && |rlp| <= MAX_BRANCH_RLP_SIZE
  {
    var str := new Byte[MAX_BRANCH_RLP_SIZE](_ => 0);
    var next := EncodeNode(n, str);
    rlp := FinishBranch(str, next, NodeRefs(n));
  }

  /** Creating a node from children and encoding it again gives the same bytes. */
  method CreateNodeWithChildren(mask: set<nat>, children: seq<Child>)
    returns (n: BranchNode, created: Bytes, again: Bytes)
    requires Ascending(children) && mask == RefsOf(children, |children|).Keys
    ensures NodeOk(n) && created == again && |created| <= MAX_BRANCH_RLP_SIZE
    ensures |BigEndian(|Payload(NodeRefs(n))|)| <= 8 && created == RlpList(Payload(NodeRefs(n)))
  {
    created := ComputeNodeData(children);
    n := MakeNode(mask, children);
    again := ComputeBranchReference(n);
  }
}
