/** Ropes in memory: who refers to whom, what a rope says, and when counts are right. */
module RopeHeap {
  import opened Util

  const NUL: char := 0 as char

  /** Where the characters of a leaf are: in the memory block of a rope, or in static memory. */
  datatype Base = Own(r: nat) | Lit(text: seq<char>)

  datatype Body = Leaf(owner: Option<nat>, base: Base, off: nat) | Node(left: nat, right: nat)

  /** `buf` are the bytes at the end of the block. */
  datatype Rope = Rope(refcnt: nat, weight: nat, body: Body, buf: seq<char>)

  /** Live blocks by address. Addresses of new blocks grow. */
  type Heap = map<nat, Rope>

  function Buffer(h: Heap, base: Base): seq<char> {
    match base
    case Lit(t) => t
    case Own(r) => if r in h then h[r].buf else []
  }

  /** The characters of a rope. */
  function Text(h: Heap, p: nat): seq<char>
    decreases p
  {
    if p !in h then []
    else match h[p].body
      case Leaf(_, base, off) =>
        if off + h[p].weight <= |Buffer(h, base)| then Buffer(h, base)[off..off + h[p].weight] else []
      case Node(l, r) => if l < p && r < p then Text(h, l) + Text(h, r) else []
  }

  // ---------- references ----------

  function Out(b: Body): multiset<nat> {
    match b
    case Leaf(o, _, _) => if o.Some? then multiset{o.value} else multiset{}
    case Node(l, r) => multiset{l} + multiset{r}
  }

  function OutAt(h: Heap, p: nat): multiset<nat> {
    if p in h then Out(h[p].body) else multiset{}
  }

  /** How many references to `x` the ropes below address `n` hold. */
  ghost function Refs(h: Heap, n: nat, x: nat): nat {
    if n == 0 then 0 else Refs(h, n - 1, x) + OutAt(h, n - 1)[x]
  }

  lemma {:induction false} RefsSame(h: Heap, h1: Heap, n: nat, x: nat)
    requires forall p :: 0 <= p < n ==> OutAt(h, p) == OutAt(h1, p)
    ensures Refs(h, n, x) == Refs(h1, n, x)
    decreases n
  {
    hide OutAt;
    if n > 0 { RefsSame(h, h1, n - 1, x); }
  }

  /** One rope changes, appears or disappears. */
  lemma {:induction false} RefsChange(h: Heap, h1: Heap, n: nat, k: nat, x: nat)
    requires k < n && forall p :: 0 <= p < n && p != k ==> OutAt(h, p) == OutAt(h1, p)
    ensures Refs(h1, n, x) + OutAt(h, k)[x] == Refs(h, n, x) + OutAt(h1, k)[x]
    decreases n
  {
    hide OutAt;
    if k == n - 1 {
      RefsSame(h, h1, n - 1, x);
    } else {
      RefsChange(h, h1, n - 1, k, x);
    }
  }

  lemma {:induction false} RefsOf(h: Heap, n: nat, p: nat, x: nat)
    requires p < n
    ensures Refs(h, n, x) >= OutAt(h, p)[x]
    decreases n
  {
    hide OutAt;
    if p < n - 1 { RefsOf(h, n - 1, p, x); }
  }

  lemma {:induction false} RefsNone(h: Heap, n: nat, x: nat)
    requires forall p :: 0 <= p < n ==> OutAt(h, p)[x] == 0
    ensures Refs(h, n, x) == 0
    decreases n
  {
    hide OutAt;
    if n > 0 { RefsNone(h, n - 1, x); }
  }

  // ---------- the invariant ----------

  /** A leaf that owns its characters, or borrows them from one that does. */
  ghost predicate LeafOk(h: Heap, p: nat)
    requires p in h && h[p].body.Leaf?
  {
    var b := h[p].body;
    && b.off + h[p].weight < |Buffer(h, b.base)|
    && match b.owner
       case None => b.off == 0 && (b.base == Own(p) || b.base.Lit?)
                    && |Buffer(h, b.base)| == h[p].weight + 1 && Buffer(h, b.base)[h[p].weight] == NUL
       case Some(o) => o in h && h[o].body.Leaf? && h[o].body.owner == None && h[o].body.base == b.base
  }

  ghost predicate NodeOk(h: Heap, p: nat)
    requires p in h && h[p].body.Node?
  {
    var b := h[p].body;
    b.left in h && b.right in h && b.left < p && b.right < p && h[p].weight == h[b.left].weight + h[b.right].weight
  }

  ghost predicate Shaped(h: Heap, p: nat)
    requires p in h
  {
    if h[p].body.Leaf? then LeafOk(h, p) else NodeOk(h, p)
  }

  ghost predicate Shapes(h: Heap, next: nat) {
    forall p :: p in h ==> p < next && Shaped(h, p)
  }

  ghost predicate Counts(h: Heap, next: nat, roots: multiset<nat>) {
    && (forall p :: p in h ==> h[p].refcnt > 0 && h[p].refcnt >= roots[p] + Refs(h, next, p))
    && (forall p :: p in roots ==> p in h)
  }

  /** `roots` are the references from outside: string objects and local variables. Counts never fall
      below the number of references, and nothing refers to a block that was freed. */
  ghost predicate Inv(h: Heap, next: nat, roots: multiset<nat>) {
    Shapes(h, next) && Counts(h, next, roots)
  }

  lemma {:induction false} TextLength(h: Heap, next: nat, p: nat)
    requires Shapes(h, next) && p in h
    ensures |Text(h, p)| == h[p].weight
    decreases p
  {
    assert Shaped(h, p);
    if h[p].body.Node? {
      TextLength(h, next, h[p].body.left);
      TextLength(h, next, h[p].body.right);
    }
  }

  /** Only counts differ, and blocks may have been freed. */
  ghost predicate Shrunk(h: Heap, h1: Heap) {
    forall p :: p in h1 ==> p in h && h1[p].body == h[p].body && h1[p].weight == h[p].weight && h1[p].buf == h[p].buf
  }

  /** Every live rope but `x` says what it said. */
  ghost predicate Same(h: Heap, h1: Heap, x: Option<nat>) {
    forall p :: p in h && p in h1 && x != Some(p) ==> Text(h1, p) == Text(h, p) && h1[p].weight == h[p].weight
  }

  /** It is enough that each rope keeps its body and buffer, or its text. */
  lemma {:induction false} TextKept(h: Heap, h1: Heap, next: nat, p: nat)
    requires Shapes(h1, next) && p in h1 && p in h
    requires forall q :: q in h1 && q <= p ==>
      q in h && (Text(h1, q) == Text(h, q) || (h1[q].body.Node? && h1[q].body == h[q].body))
    ensures Text(h1, p) == Text(h, p)
    decreases p
  {
    assert Shaped(h1, p);
    if Text(h1, p) != Text(h, p) {
      TextKept(h, h1, next, h1[p].body.left);
      TextKept(h, h1, next, h1[p].body.right);
    }
  }

  lemma ShrunkSame(h: Heap, h1: Heap, next: nat)
    requires Shapes(h1, next) && Shrunk(h, h1)
    ensures Same(h, h1, None)
  {
    forall p | p in h1 ensures Text(h1, p) == Text(h, p) {
      forall q | q in h1 && q <= p ensures q in h && (Text(h1, q) == Text(h, q)
                                                      || (h1[q].body.Node? && h1[q].body == h[q].body)) {
        assert Shaped(h1, q);
        if h1[q].body.Leaf? { LeafText(h, h1, q); }
      }
      TextKept(h, h1, next, p);
    }
  }

  lemma LeafText(h: Heap, h1: Heap, q: nat)
    requires q in h && q in h1 && h1[q].body == h[q].body && h1[q].weight == h[q].weight && h1[q].body.Leaf?
      && LeafOk(h1, q)
    requires Shrunk(h, h1)
    ensures Text(h1, q) == Text(h, q)
  {
  }

  lemma SameTrans(h: Heap, h1: Heap, h2: Heap, x: Option<nat>)
    requires Same(h, h1, x) && Same(h1, h2, x) && forall p :: p in h && p in h2 ==> p in h1
    ensures Same(h, h2, x)
  {
    hide Text;
  }

  // ---------- single steps ----------

  function WithCount(h: Heap, p: nat, n: nat): Heap
    requires p in h
  {
    h[p := h[p].(refcnt := n)]
  }

  lemma CountShape(h: Heap, next: nat, p: nat, n: nat)
    requires p in h && Shapes(h, next)
    ensures Shapes(WithCount(h, p, n), next)
    ensures Shrunk(h, WithCount(h, p, n)) && WithCount(h, p, n).Keys == h.Keys
    ensures forall x :: Refs(WithCount(h, p, n), next, x) == Refs(h, next, x)
  {
    var h1 := WithCount(h, p, n);
    forall q | q in h1 ensures Shaped(h1, q) { CountShaped(h, next, p, n, q); }
    hide Shaped;
    forall x ensures Refs(h1, next, x) == Refs(h, next, x) { RefsSame(h, h1, next, x); }
  }

  lemma CountShaped(h: Heap, next: nat, p: nat, n: nat, q: nat)
    requires p in h && Shapes(h, next) && q in h
    ensures Shaped(WithCount(h, p, n), q)
  {
    assert Shaped(h, q);
  }

  /** Counting a new reference. */
  lemma CountUp(h: Heap, next: nat, roots: multiset<nat>, p: nat)
    requires Inv(h, next, roots) && p in h
    ensures Inv(WithCount(h, p, h[p].refcnt + 1), next, roots + multiset{p})
    ensures Shrunk(h, WithCount(h, p, h[p].refcnt + 1))
  {
    CountShape(h, next, p, h[p].refcnt + 1);
    hide Shapes, Refs, Shrunk;
  }

  /** Giving up a reference that is not the last one counted. */
  lemma CountDown(h: Heap, next: nat, roots: multiset<nat>, p: nat)
    requires Inv(h, next, roots) && p in roots && h[p].refcnt > 1
    ensures Inv(WithCount(h, p, h[p].refcnt - 1), next, roots - multiset{p})
    ensures Shrunk(h, WithCount(h, p, h[p].refcnt - 1))
  {
    CountShape(h, next, p, h[p].refcnt - 1);
    hide Shapes, Refs, Shrunk;
    var h1 := WithCount(h, p, h[p].refcnt - 1);
    forall q | q in h1 ensures h1[q].refcnt > 0 && h1[q].refcnt >= (roots - multiset{p})[q] + Refs(h1, next, q) {
      assert (roots - multiset{p})[q] == if q == p then roots[q] - 1 else roots[q];
    }
  }

  /** Giving up the last reference: nothing else refers to the block, and its own references pass to
      the one who frees it. */
  lemma Freed(h: Heap, next: nat, roots: multiset<nat>, p: nat)
    requires Inv(h, next, roots) && p in roots && h[p].refcnt == 1
    ensures Inv(h - {p}, next, roots - multiset{p} + Out(h[p].body))
    ensures Shrunk(h, h - {p})
  {
    hide Shaped, Refs, Out;
    assert Refs(h, next, p) == 0;
    forall q | q in h - {p} ensures Shaped(h - {p}, q) { FreedShape(h, next, p, q); }
    FreedCounts(h, next, roots, p);
  }

  lemma FreedCounts(h: Heap, next: nat, roots: multiset<nat>, p: nat)
    requires Inv(h, next, roots) && p in roots && h[p].refcnt == 1
    ensures Counts(h - {p}, next, roots - multiset{p} + Out(h[p].body))
  {
    OutLive(h, next, p);
    hide Shaped, Out, Refs;
    var h1, roots1 := h - {p}, roots - multiset{p} + Out(h[p].body);
    forall q | q in h1 ensures h1[q].refcnt > 0 && h1[q].refcnt >= roots1[q] + Refs(h1, next, q) {
      FreedCount(h, next, roots, p, q);
    }
    RefsOf(h, next, p, p);
    assert OutAt(h, p) == Out(h[p].body);
    forall q | q in roots1 ensures q in h1 { AfterFree(roots, p, Out(h[p].body), q); }
  }

  lemma AfterFree(roots: multiset<nat>, p: nat, m: multiset<nat>, q: nat)
    requires p in roots
    ensures (roots - multiset{p} + m)[q] == (if q == p then roots[q] - 1 else roots[q]) + m[q]
  {
  }

  lemma FreedCount(h: Heap, next: nat, roots: multiset<nat>, p: nat, q: nat)
    requires Inv(h, next, roots) && p in roots && h[p].refcnt == 1 && q in h && q != p
    ensures h[q].refcnt > 0 && h[q].refcnt >= (roots - multiset{p} + Out(h[p].body))[q] + Refs(h - {p}, next, q)
  {
    assert p < next;
    hide Shapes, Refs, Out;
    RefsChange(h, h - {p}, next, p, q);
    AfterFree(roots, p, Out(h[p].body), q);
  }

  /** What a rope refers to is live. */
  lemma OutLive(h: Heap, next: nat, p: nat)
    requires Shapes(h, next) && p in h
    ensures forall q :: q in Out(h[p].body) ==> q in h
  {
    assert Shaped(h, p);
  }

  lemma FreedShape(h: Heap, next: nat, p: nat, q: nat)
    requires Shapes(h, next) && Refs(h, next, p) == 0 && q in h && q != p
    ensures Shaped(h - {p}, q)
  {
    assert Shaped(h, q);
    RefsOf(h, next, q, p);
    hide Refs;
    assert Out(h[q].body)[p] == 0;
    FreedParts(h, next, p, q);
  }

  lemma FreedParts(h: Heap, next: nat, p: nat, q: nat)
    requires Shapes(h, next) && q in h && Out(h[q].body)[p] == 0 && q != p && Shaped(h, q)
    ensures Shaped(h - {p}, q)
  {
    var b := h[q].body;
    if b.Leaf? && b.owner.Some? {
      assert b.owner.value != p;
      assert Shaped(h, b.owner.value);
    } else if b.Node? {
      assert b.left != p && b.right != p;
    }
  }

  /** A new block. Its references come from the one who made it, who gets a reference to it. */
  lemma Allocated(h: Heap, next: nat, roots: multiset<nat>, p: nat, r: Rope)
    requires Inv(h, next, roots + Out(r.body)) && p >= next && r.refcnt == 1 && Shaped(h[p := r], p)
    ensures Inv(h[p := r], p + 1, roots + multiset{p})
    ensures Same(h, h[p := r], None)
  {
    hide Shaped, Refs, Out, Text;
    var h1 := h[p := r];
    forall q | q in h ensures Shaped(h1, q) && Text(h1, q) == Text(h, q) { AllocatedText(h, next, p, r, q); }
    AllocatedCounts(h, next, roots, p, r);
  }

  lemma AllocatedCounts(h: Heap, next: nat, roots: multiset<nat>, p: nat, r: Rope)
    requires Inv(h, next, roots + Out(r.body)) && p >= next && r.refcnt == 1
    ensures Counts(h[p := r], p + 1, roots + multiset{p})
  {
    hide Shapes, Refs, Out;
    var h1 := h[p := r];
    forall q | q in h1 ensures h1[q].refcnt > 0 && h1[q].refcnt >= (roots + multiset{p})[q] + Refs(h1, p + 1, q) {
      AllocatedCount(h, next, roots, p, r, q);
    }
    forall q | q in roots + multiset{p} ensures q in h1 {
      if q != p { assert q in roots + Out(r.body); }
    }
  }

  lemma AllocatedCount(h: Heap, next: nat, roots: multiset<nat>, p: nat, r: Rope, q: nat)
    requires Inv(h, next, roots + Out(r.body)) && p >= next && r.refcnt == 1 && q in h[p := r]
    ensures h[p := r][q].refcnt > 0 && h[p := r][q].refcnt >= (roots + multiset{p})[q] + Refs(h[p := r], p + 1, q)
  {
    NewAddress(h, next, p);
    if q == p { RefsNew(h, next, roots + Out(r.body), p); }
    hide Shapes, Refs, Out;
    AllocatedRefs(h, next, p, r, q);
    AddedAt(roots, Out(r.body), q);
    AddedAt(roots, multiset{p}, q);
  }

  lemma NewAddress(h: Heap, next: nat, p: nat)
    requires Shapes(h, next) && p >= next
    ensures p !in h && forall z :: z in h ==> z < next
  {
    hide Shaped;
  }

  lemma AddedAt(roots: multiset<nat>, m: multiset<nat>, q: nat)
    ensures (roots + m)[q] == roots[q] + m[q]
  {
  }

  lemma AllocatedRefs(h: Heap, next: nat, p: nat, r: Rope, q: nat)
    requires p >= next && p !in h && forall z :: z in h ==> z < next
    ensures Refs(h[p := r], p + 1, q) == Refs(h, next, q) + Out(r.body)[q]
  {
    hide Refs, Out;
    RefsGrow(h, next, p, q);
    RefsChange(h, h[p := r], p + 1, p, q);
  }

  lemma {:induction false} RefsGrow(h: Heap, n: nat, m: nat, x: nat)
    requires n <= m && forall p :: p in h ==> p < n
    ensures Refs(h, m + 1, x) == Refs(h, n, x)
    decreases m
  {
    if n < m { RefsGrow(h, n, m - 1, x); }
  }

  lemma RefsNew(h: Heap, next: nat, roots: multiset<nat>, x: nat)
    requires Inv(h, next, roots) && x !in h
    ensures Refs(h, next, x) == 0 && roots[x] == 0
  {
    forall p | 0 <= p < next ensures OutAt(h, p)[x] == 0 {
      if p in h { assert Shaped(h, p); }
    }
    RefsNone(h, next, x);
  }

  lemma {:induction false} AllocatedText(h: Heap, next: nat, p: nat, r: Rope, q: nat)
    requires Shapes(h, next) && p >= next && q in h
    ensures Text(h[p := r], q) == Text(h, q) && Shaped(h[p := r], q)
    decreases q
  {
    assert Shaped(h, q);
    if h[q].body.Node? {
      AllocatedText(h, next, p, r, h[q].body.left);
      AllocatedText(h, next, p, r, h[q].body.right);
    } else if h[q].body.owner.Some? {
      assert Shaped(h, h[q].body.owner.value);
    }
  }

  // ---------- path compression ----------

  /** The node `p` after compression. */
  function Compressed(h: Heap, p: nat, o: nat, off: nat): Heap
    requires p in h
  {
    h[p := h[p].(body := Leaf(Some(o), Own(o), off))]
  }

  /** A node becomes a slice of `o`, whose buffer holds the node's text. The counted reference to the
      owner becomes the slice's; the references to the children are left to be given up. */
  lemma Compressing(h: Heap, next: nat, roots: multiset<nat>, p: nat, o: nat, off: nat)
    requires Inv(h, next, roots + multiset{o}) && p in h && h[p].body.Node?
    requires o in h && h[o].body == Leaf(None, Own(o), 0) && off + h[p].weight <= h[o].weight
    requires off + h[p].weight <= |h[o].buf| && h[o].buf[off..off + h[p].weight] == Text(h, p)
    ensures Inv(Compressed(h, p, o, off), next, roots + multiset{h[p].body.left} + multiset{h[p].body.right})
    ensures Same(h, Compressed(h, p, o, off), None)
  {
    hide Shapes, Counts, Same, Text, Refs;
    CompressedShapes(h, next, p, o, off);
    CompressedCounts(h, next, roots, p, o, off);
  }

  lemma CompressedCounts(h: Heap, next: nat, roots: multiset<nat>, p: nat, o: nat, off: nat)
    requires Inv(h, next, roots + multiset{o}) && p in h && h[p].body.Node?
    ensures Counts(Compressed(h, p, o, off), next, roots + multiset{h[p].body.left} + multiset{h[p].body.right})
  {
    var h1, roots1 := Compressed(h, p, o, off), roots + multiset{h[p].body.left} + multiset{h[p].body.right};
    assert p < next;
    OutLive(h, next, p);
    hide Refs, Shapes;
    forall q | q in h1 ensures h1[q].refcnt > 0 && h1[q].refcnt >= roots1[q] + Refs(h1, next, q) {
      RefsChange(h, h1, next, p, q);
      assert OutAt(h1, p) == multiset{o} && OutAt(h, p) == multiset{h[p].body.left} + multiset{h[p].body.right};
      assert roots1[q] == roots[q] + OutAt(h, p)[q];
      assert (roots + multiset{o})[q] == roots[q] + OutAt(h1, p)[q];
    }
    forall q | q in roots1 ensures q in h1 {
      assert q in roots + multiset{o} || q in Out(h[p].body);
    }
  }

  lemma CompressedShape(h: Heap, next: nat, p: nat, o: nat, off: nat, q: nat)
    requires Shapes(h, next) && p in h && h[p].body.Node? && q in h
    requires o in h && h[o].body == Leaf(None, Own(o), 0) && off + h[p].weight <= h[o].weight
    ensures Shaped(Compressed(h, p, o, off), q)
  {
    assert Shaped(h, o) && Shaped(h, q);
    if q == p {
      assert o != p;
    } else if h[q].body.Leaf? && h[q].body.owner.Some? {
      assert Shaped(h, h[q].body.owner.value);
    }
  }

  lemma CompressedText(h: Heap, next: nat, p: nat, o: nat, off: nat, q: nat)
    requires Shapes(h, next) && p in h && h[p].body.Node? && q in h
    requires o in h && h[o].body == Leaf(None, Own(o), 0)
    requires off + h[p].weight <= |h[o].buf| && h[o].buf[off..off + h[p].weight] == Text(h, p)
    ensures var h1 := Compressed(h, p, o, off);
      Text(h1, q) == Text(h, q) || (h1[q].body.Node? && h1[q].body == h[q].body)
  {
    assert Shaped(h, q);
    if q != p && h[q].body.Leaf? && h[q].body.owner.Some? { assert Shaped(h, h[q].body.owner.value); }
  }

  lemma CompressedShapes(h: Heap, next: nat, p: nat, o: nat, off: nat)
    requires Shapes(h, next) && p in h && h[p].body.Node?
    requires o in h && h[o].body == Leaf(None, Own(o), 0) && off + h[p].weight <= h[o].weight
    requires off + h[p].weight <= |h[o].buf| && h[o].buf[off..off + h[p].weight] == Text(h, p)
    ensures Shapes(Compressed(h, p, o, off), next) && Same(h, Compressed(h, p, o, off), None)
  {
    hide Text, Shaped;
    var h1 := Compressed(h, p, o, off);
    forall q | q in h1 ensures Shaped(h1, q) { CompressedShape(h, next, p, o, off, q); }
    forall q | q in h1 ensures Text(h1, q) == Text(h, q) {
      forall z | z in h1 && z <= q ensures z in h && (Text(h1, z) == Text(h, z)
                                                      || (h1[z].body.Node? && h1[z].body == h[z].body)) {
        CompressedText(h, next, p, o, off, z);
      }
      TextKept(h, h1, next, q);
    }
  }

  // ---------- filling a buffer ----------

  /** Slices of `o` lie in the first `off` characters of its buffer. */
  ghost predicate SlicesBelow(h: Heap, o: nat, off: nat) {
    forall p :: p in h && p != o && h[p].body.Leaf? && h[p].body.base == Own(o) ==> h[p].body.off + h[p].weight <= off
  }

  /** `o` is a leaf that owns its buffer, newer than every node. */
  ghost predicate Target(h: Heap, o: nat) {
    o in h && h[o].body == Leaf(None, Own(o), 0) && forall p :: p in h && h[p].body.Node? ==> p < o
  }

  function Filled(h: Heap, o: nat, off: nat, t: seq<char>): Heap
    requires o in h && off + |t| <= |h[o].buf|
  {
    h[o := h[o].(buf := h[o].buf[..off] + t + h[o].buf[off + |t|..])]
  }

  /** Copying behind all slices changes no text but the owner's. */
  lemma Filling(h: Heap, next: nat, roots: multiset<nat>, o: nat, off: nat, t: seq<char>)
    requires Inv(h, next, roots) && Target(h, o) && SlicesBelow(h, o, off) && off + |t| <= h[o].weight
    ensures off + |t| <= |h[o].buf|
    ensures Inv(Filled(h, o, off, t), next, roots) && Same(h, Filled(h, o, off, t), Some(o))
    ensures Target(Filled(h, o, off, t), o) && SlicesBelow(Filled(h, o, off, t), o, off)
  {
    assert Shaped(h, o);
    hide Shaped, Text, Same;
    FilledShapes(h, next, o, off, t);
    FilledCounts(h, next, roots, o, off, t);
  }

  lemma FilledCounts(h: Heap, next: nat, roots: multiset<nat>, o: nat, off: nat, t: seq<char>)
    requires Counts(h, next, roots) && o in h && off + |t| <= |h[o].buf|
    ensures Counts(Filled(h, o, off, t), next, roots)
  {
    var h1 := Filled(h, o, off, t);
    forall q ensures Refs(h1, next, q) == Refs(h, next, q) { RefsSame(h, h1, next, q); }
    hide Refs;
  }

  lemma FilledShape(h: Heap, next: nat, o: nat, off: nat, t: seq<char>, q: nat)
    requires Shapes(h, next) && o in h && h[o].body == Leaf(None, Own(o), 0) && off + |t| <= h[o].weight
      && off + |t| <= |h[o].buf|
    requires q in h
    ensures Shaped(Filled(h, o, off, t), q)
  {
    var h1 := Filled(h, o, off, t);
    assert Shaped(h, o) && Shaped(h, q);
    assert |h1[o].buf| == |h[o].buf| && h1[o].buf[h[o].weight] == h[o].buf[h[o].weight];
    if h[q].body.Leaf? && h[q].body.owner.Some? { assert Shaped(h, h[q].body.owner.value); }
  }

  lemma FilledShapes(h: Heap, next: nat, o: nat, off: nat, t: seq<char>)
    requires Shapes(h, next) && Target(h, o) && SlicesBelow(h, o, off) && off + |t| <= h[o].weight
      && off + |t| <= |h[o].buf|
    ensures Shapes(Filled(h, o, off, t), next) && Same(h, Filled(h, o, off, t), Some(o))
  {
    hide Shaped, Text;
    var h1 := Filled(h, o, off, t);
    forall q | q in h1 ensures Shaped(h1, q) { FilledShape(h, next, o, off, t, q); }
    forall q | q in h1 && q != o ensures Text(h1, q) == Text(h, q) { FilledText(h, next, o, off, t, q); }
  }

  lemma {:induction false} FilledText(h: Heap, next: nat, o: nat, off: nat, t: seq<char>, q: nat)
    requires Shapes(h, next) && Target(h, o) && SlicesBelow(h, o, off) && off + |t| <= h[o].weight && q in h && q != o
    requires off + |t| <= |h[o].buf|
    ensures Text(Filled(h, o, off, t), q) == Text(h, q)
    decreases q
  {
    assert Shaped(h, q) && Shaped(h, o);
    if h[q].body.Node? {
      FilledText(h, next, o, off, t, h[q].body.left);
      FilledText(h, next, o, off, t, h[q].body.right);
    } else if h[q].body.base == Own(o) {
      FilledBelow(h[o].buf, off, t, h[q].body.off, h[q].weight);
    }
  }

  lemma FilledBelow(b: seq<char>, off: nat, t: seq<char>, i: nat, w: nat)
    requires off + |t| <= |b| && i + w <= off
    ensures (b[..off] + t + b[off + |t|..])[i..i + w] == b[i..i + w]
  {
  }
}
