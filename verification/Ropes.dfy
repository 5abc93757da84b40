/** `lib/string.c`: strings as shared, reference-counted ropes that are flattened in place. */
module RopeStrings {
  import opened Util
  import opened RopeHeap

  /** A node keeps its whole block as long as only ropes built before it are released. */
  ghost predicate NodesAbove(h: Heap, h1: Heap, p: nat) {
    p in h && forall y :: y in h && h[y].body.Node? && (h[p].body.Leaf? || y > p) ==> y in h1 && h1[y] == h[y]
  }

  function Rank(b: Body, p: nat): nat {
    match b
    case Leaf(o, _, _) => if o.Some? then 1 else 0
    case Node(_, _) => p + 2
  }

  lemma ChildRank(h: Heap, next: nat, p: nat)
    requires Shapes(h, next) && p in h
    ensures h[p].body.Leaf? && h[p].body.owner.Some? ==>
      var o := h[p].body.owner.value; o in h && h[o].body.Leaf? && h[o].body.owner == None
    ensures h[p].body.Node? ==>
      var l, r := h[p].body.left, h[p].body.right;
      l in h && r in h && l < p && r < p && h[p].weight == h[l].weight + h[r].weight
  {
    assert Shaped(h, p);
  }

  /** More references may be outstanding than are counted for. */
  lemma Forget(h: Heap, next: nat, roots: multiset<nat>, p: nat)
    requires Inv(h, next, roots + multiset{p})
    ensures Inv(h, next, roots)
  {
    hide Shapes, Refs;
    forall q | q in roots ensures q in h { assert q in roots + multiset{p}; }
    forall q | q in h ensures h[q].refcnt >= roots[q] + Refs(h, next, q) { AddedAt(roots, multiset{p}, q); }
  }

  lemma InvShapes(h: Heap, next: nat, roots: multiset<nat>)
    requires Inv(h, next, roots)
    ensures Shapes(h, next) && forall p :: p in roots ==> p in h && h[p].refcnt > 0 && h[p].refcnt >= roots[p]
  {
    hide Shapes, Refs;
  }

  /** The references held by string objects. */
  ghost function Held(strs: seq<Option<nat>>): multiset<nat> {
    if strs == [] then multiset{}
    else Held(strs[..|strs| - 1]) + (if strs[|strs| - 1].Some? then multiset{strs[|strs| - 1].value} else multiset{})
  }

  ghost function One(s: Option<nat>): multiset<nat> {
    if s.Some? then multiset{s.value} else multiset{}
  }

  lemma HeldPush(strs: seq<Option<nat>>, s: Option<nat>)
    ensures Held(strs + [s]) == Held(strs) + One(s)
  {
    assert (strs + [s])[..|strs|] == strs;
  }

  lemma {:induction false} HeldUpdate(strs: seq<Option<nat>>, i: nat, s: Option<nat>)
    requires i < |strs|
    ensures Held(strs[i := s]) + One(strs[i]) == Held(strs) + One(s)
    decreases |strs|
  {
    var k := |strs| - 1;
    if i < k {
      HeldUpdate(strs[..k], i, s);
      assert strs[i := s][..k] == strs[..k][i := s];
      var a, b, c := Held(strs[..k][i := s]), Held(strs[..k]), One(strs[k]);
      assert Held(strs[i := s]) == a + c && Held(strs) == b + c;
      assert (a + c) + One(strs[i]) == (a + One(strs[i])) + c;
    } else {
      assert strs[i := s][..k] == strs[..k];
    }
  }

  lemma {:induction false} HeldHas(strs: seq<Option<nat>>, i: nat)
    requires i < |strs| && strs[i].Some?
    ensures strs[i].value in Held(strs)
    decreases |strs|
  {
    if i < |strs| - 1 { HeldHas(strs[..|strs| - 1], i); }
  }

  class Memory {
    var ropes: Heap
    var next: nat
    var strs: seq<Option<nat>>

    // ---------- counting ----------

    /** `pic_rope_incref` */
    method Incref(p: nat, ghost roots: multiset<nat>)
      requires Inv(ropes, next, roots) && p in ropes
      modifies `ropes
      ensures Inv(ropes, next, roots + multiset{p}) && ropes == WithCount(old(ropes), p, old(ropes[p].refcnt) + 1)
    {
      CountUp(ropes, next, roots, p);
      ropes := WithCount(ropes, p, ropes[p].refcnt + 1);
    }

    /** `pic_rope_decref`: gives up one reference, and frees every block to which it was the last. The
        blocks in `dying` are being freed: their own references are given up one by one. */
    method Decref(p: nat, ghost roots: multiset<nat>, ghost dying: set<nat>)
      requires Inv(ropes - dying, next, roots) && p in roots && p in ropes
      modifies `ropes
      ensures Inv(ropes - dying, next, roots - multiset{p})
      ensures Shrunk(old(ropes) - dying, ropes - dying)
      ensures old(ropes)[p].refcnt > 1 ==> ropes == WithCount(old(ropes), p, old(ropes)[p].refcnt - 1)
      ensures NodesAbove(old(ropes) - dying, ropes - dying, p)
      ensures forall d :: d in dying ==> (d in ropes <==> d in old(ropes)) && (d in ropes ==> ropes[d] == old(ropes)[d])
      decreases Rank(ropes[p].body, p), 1
    {
      hide *;
      ghost var h := ropes - dying;
      InvShapes(h, next, roots);
      ChildRank(h, next, p);
      RankIs(ropes[p].body, p);
      var b := ropes[p].body;
      if ropes[p].refcnt > 1 {
        CountDown(h, next, roots, p);
        CountNodes(h, ropes, dying, p, ropes[p].refcnt - 1);
        ropes := WithCount(ropes, p, ropes[p].refcnt - 1);
        return;
      }
      Freed(h, next, roots, p);
      FreedNodes(h, ropes, dying, p);
      ropes := WithCount(ropes, p, 0);
      GiveUp(b, p, roots - multiset{p}, dying + {p});
      GivenUp(h, ropes, dying, p, b);
      ropes := ropes - {p};
    }

    /** The part of `pic_rope_decref` before the block is freed: gives up the references in it. */
    method GiveUp(b: Body, ghost p: nat, ghost roots: multiset<nat>, ghost gone: set<nat>)
      requires Inv(ropes - gone, next, roots + Out(b))
      requires b.Leaf? && b.owner.Some? ==>
        b.owner.value in ropes - gone && ropes[b.owner.value].body.Leaf? && ropes[b.owner.value].body.owner == None
      requires b.Node? ==> b.left in ropes - gone && b.right in ropes - gone && b.left < p && b.right < p
      modifies `ropes
      ensures Inv(ropes - gone, next, roots)
      ensures Shrunk(old(ropes) - gone, ropes - gone) && NodesKept(old(ropes) - gone, ropes - gone, b, p)
      ensures forall d :: d in gone ==> (d in ropes <==> d in old(ropes)) && (d in ropes ==> ropes[d] == old(ropes)[d])
      decreases Rank(b, p), 0
    {
      hide *;
      ghost var h := ropes - gone;
      OutIs(b, roots);
      RankIs(b, p);
      if b.Leaf? {
        if b.owner.Some? {
          var o := b.owner.value;
          RankIs(ropes[o].body, o);
          Holds(roots, o);
          Decref(o, roots + multiset{o}, gone);
          TakeBack(roots, o);
          KeptByOwner(h, ropes - gone, b, p);
        } else {
          KeptAll(h, b, p);
        }
      } else {
        ghost var r1 := roots + multiset{b.right};
        RankIs(ropes[b.left].body, b.left);
        Holds(r1, b.left);
        Decref(b.left, r1 + multiset{b.left}, gone);
        TakeBack(r1, b.left);
        ghost var mid := ropes - gone;
        InvShapes(mid, next, r1);
        RankIs(ropes[b.right].body, b.right);
        Holds(roots, b.right);
        Decref(b.right, r1, gone);
        TakeBack(roots, b.right);
        KeptByChildren(h, mid, ropes - gone, b, p);
      }
    }

    // ---------- making ropes ----------

    /** `make_rope_leaf`; without a source the block is not initialized. */
    method MakeLeaf(str: Option<seq<char>>, len: nat, ghost roots: multiset<nat>) returns (p: nat)
      requires Inv(ropes, next, roots) && (str.Some? ==> |str.value| == len)
      modifies `ropes, `next
      ensures Inv(ropes, next, roots + multiset{p}) && Grown(old(ropes), ropes) && p == old(next) && next == p + 1
      ensures p in ropes && ropes[p].body == Leaf(None, Own(p), 0) && ropes[p].weight == len
      ensures ropes.Keys == old(ropes).Keys + {p}
      ensures str.Some? ==> Text(ropes, p) == str.value
    {
      hide Inv, Text, Grown;
      var junk: seq<char> := seq(len + 1, _ => '?');
      var buf := match str case Some(t) => t + [NUL] case None => junk[len := NUL];
      p := next;
      next := next + 1;
      LeafMade(ropes, p, roots, Leaf(None, Own(p), 0), len, buf);
      if str.Some? { assert buf[..len] == str.value; }
      ropes := ropes[p := Rope(1, len, Leaf(None, Own(p), 0), buf)];
    }

    /** `make_rope_lit`: the characters stay where they are. */
    method MakeLit(str: seq<char>, len: nat, ghost roots: multiset<nat>) returns (p: nat)
      requires Inv(ropes, next, roots) && |str| == len + 1 && str[len] == NUL
      modifies `ropes, `next
      ensures Inv(ropes, next, roots + multiset{p}) && Grown(old(ropes), ropes) && next == p + 1 && p == old(next)
      ensures p in ropes && Text(ropes, p) == str[..len]
    {
      hide Inv, Text, Grown;
      p := next;
      next := next + 1;
      LeafMade(ropes, p, roots, Leaf(None, Lit(str), 0), len, []);
      ropes := ropes[p := Rope(1, len, Leaf(None, Lit(str), 0), [])];
    }

    /** `make_rope_slice`: a slice of a slice borrows from the same owner. */
    method MakeSlice(owner: nat, i: nat, j: nat, ghost roots: multiset<nat>) returns (p: nat)
      requires Inv(ropes, next, roots) && owner in ropes && ropes[owner].body.Leaf? && i <= j <= ropes[owner].weight
      modifies `ropes, `next
      ensures Inv(ropes, next, roots + multiset{p}) && Grown(old(ropes), ropes) && next == p + 1 && p == old(next)
      ensures p in ropes && |old(Text(ropes, owner))| == old(ropes[owner].weight)
        && Text(ropes, p) == old(Text(ropes, owner))[i..j]
    {
      hide *;
      ghost var h := ropes;
      InvShapes(h, next, roots);
      var b := ropes[owner].body;
      var realOwner := if b.owner == None then owner else b.owner.value;
      SliceParts(h, next, owner, i, j);
      p := next;
      next := next + 1;
      SliceMade(h, p, roots, owner, i, j, realOwner);
      ropes := ropes[p := Rope(1, j - i, Leaf(Some(realOwner), b.base, b.off + i), [])];
      ropes := WithCount(ropes, realOwner, ropes[realOwner].refcnt + 1);
    }

    /** `make_rope_node` */
    method MakeNode(left: nat, right: nat, ghost roots: multiset<nat>) returns (p: nat)
      requires Inv(ropes, next, roots) && left in ropes && right in ropes
      modifies `ropes, `next
      ensures Inv(ropes, next, roots + multiset{p}) && Grown(old(ropes), ropes) && next == p + 1 && p == old(next)
      ensures p in ropes && ropes[p].body == Node(left, right)
      ensures Text(ropes, p) == old(Text(ropes, left) + Text(ropes, right))
    {
      hide *;
      ghost var h := ropes;
      p := next;
      next := next + 1;
      NodeMade(h, p, roots, left, right);
      ropes := ropes[p := Rope(1, ropes[left].weight + ropes[right].weight, Node(left, right), [])];
      CountKeys(ropes, left, ropes[left].refcnt + 1);
      ropes := WithCount(ropes, left, ropes[left].refcnt + 1);
      ropes := WithCount(ropes, right, ropes[right].refcnt + 1);
    }

    /** `merge` */
    method Merge(left: Option<nat>, right: Option<nat>, ghost roots: multiset<nat>) returns (p: nat)
      requires Inv(ropes, next, roots) && (left.Some? || right.Some?)
      requires (left.Some? ==> left.value in ropes) && (right.Some? ==> right.value in ropes)
      modifies `ropes, `next
      ensures Inv(ropes, next, roots + multiset{p}) && Grown(old(ropes), ropes) && next >= old(next) && p in ropes
      ensures Text(ropes, p) == old((if left.Some? then Text(ropes, left.value) else [])
                                    + (if right.Some? then Text(ropes, right.value) else []))
      ensures left.Some? && right.Some? ==> p !in old(ropes) && ropes[p].body == Node(left.value, right.value)
    {
      hide Inv, Shapes;
      ghost var h := ropes;
      InvShapes(h, next, roots);
      if left == None {
        Incref(right.value, roots);
        GrownSame(h, ropes, next);
        return right.value;
      }
      if right == None {
        Incref(left.value, roots);
        GrownSame(h, ropes, next);
        return left.value;
      }
      FreshAddress(h, next, roots);
      p := MakeNode(left.value, right.value, roots);
    }

    /** The end of `slice`: merges two pieces and gives up the references to them. */
    method MergeOwned(l: nat, r: nat, ghost roots: multiset<nat>) returns (p: nat)
      requires Inv(ropes, next, roots + multiset{l} + multiset{r}) && l in ropes && r in ropes
      modifies `ropes, `next
      ensures Inv(ropes, next, roots + multiset{p}) && Grown(old(ropes), ropes) && next >= old(next) && p in ropes
      ensures Text(ropes, p) == old(Text(ropes, l)) + old(Text(ropes, r))
    {
      hide Inv, Shapes, Counts, Text, Grown, WithCount;
      ghost var h2 := ropes;
      p := Merge(Some(l), Some(r), roots + multiset{l} + multiset{r});
      ghost var h3 := ropes;
      ghost var roots3 := roots + multiset{l} + multiset{r} + multiset{p};
      InvShapes(h3, next, roots3);
      DropTwo(roots, l, r, p);
      Shared(h3, next, roots3, p, l);
      NoneDying(h3);
      Decref(l, roots3, {});
      ghost var h4 := ropes;
      NoneDying(h4);
      CountGrown(h3, l, h3[l].refcnt - 1);
      GrownStep(h3, h4, p);
      Shared(h4, next, roots + multiset{r} + multiset{p}, p, r);
      InvShapes(h4, next, roots + multiset{r} + multiset{p});
      Decref(r, roots + multiset{r} + multiset{p}, {});
      NoneDying(ropes);
      CountGrown(h4, r, h4[r].refcnt - 1);
      GrownTrans(h3, h4, ropes);
      GrownAt(h3, ropes, next, p);
      GrownTrans(h2, h3, ropes);
    }

    /** `slice`: the characters from `i` to `j`. */
    method Slice(rope: nat, i: nat, j: nat, ghost roots: multiset<nat>) returns (p: nat)
      requires Inv(ropes, next, roots) && rope in ropes && i <= j <= ropes[rope].weight
      modifies `ropes, `next
      ensures Inv(ropes, next, roots + multiset{p}) && Grown(old(ropes), ropes) && next >= old(next) && p in ropes
      ensures |old(Text(ropes, rope))| == old(ropes[rope].weight) && Text(ropes, p) == old(Text(ropes, rope))[i..j]
      decreases rope, 1
    {
      hide Inv, Shapes, Counts, Text, Grown, WithCount;
      ghost var h, n0 := ropes, next;
      InvShapes(h, next, roots);
      TextLength(h, next, rope);
      if i == 0 && ropes[rope].weight == j {
        Incref(rope, roots);
        CountGrown(h, rope, h[rope].refcnt + 1);
        GrownSame(h, ropes, next);
        WholeSlice(Text(h, rope));
        return rope;
      }
      if ropes[rope].body.Leaf? {
        p := MakeSlice(rope, i, j, roots);
        return;
      }
      var left, right := ropes[rope].body.left, ropes[rope].body.right;
      ChildRank(h, next, rope);
      NodeText(h, rope);
      TextLength(h, next, left);
      TextLength(h, next, right);
      var lweight := ropes[left].weight;
      if j <= lweight {
        p := Slice(left, i, j, roots);
        SliceLeft(Text(h, left), Text(h, right), i, j);
      } else if lweight <= i {
        p := Slice(right, i - lweight, j - lweight, roots);
        SliceRight(Text(h, left), Text(h, right), i, j);
      } else {
        p := SliceAcross(rope, i, j, roots);
      }
    }

    /** A slice that takes from both children. */
    method SliceAcross(rope: nat, i: nat, j: nat, ghost roots: multiset<nat>) returns (p: nat)
      requires Inv(ropes, next, roots) && rope in ropes && i <= j <= ropes[rope].weight && ropes[rope].body.Node?
      requires ropes[rope].body.left in ropes && i < ropes[ropes[rope].body.left].weight < j
      modifies `ropes, `next
      ensures Inv(ropes, next, roots + multiset{p}) && Grown(old(ropes), ropes) && next >= old(next) && p in ropes
      ensures |old(Text(ropes, rope))| == old(ropes[rope].weight) && Text(ropes, p) == old(Text(ropes, rope))[i..j]
      decreases rope, 0
    {
      hide Inv, Shapes, Counts, Text, Grown, WithCount;
      ghost var h, n0 := ropes, next;
      var left, right := ropes[rope].body.left, ropes[rope].body.right;
      InvShapes(h, next, roots);
      TextLength(h, next, rope);
      ChildRank(h, next, rope);
      NodeText(h, rope);
      TextLength(h, next, left);
      TextLength(h, next, right);
      var lweight := ropes[left].weight;
      var l := Slice(left, i, lweight, roots);
      ghost var h1, n1 := ropes, next;
      InvShapes(h1, n1, roots + multiset{l});
      GrownAt(h, h1, n0, right);
      var r := Slice(right, 0, j - lweight, roots + multiset{l});
      ghost var h2, n2 := ropes, next;
      InvShapes(h2, n2, roots + multiset{l} + multiset{r});
      GrownTrans(h, h1, h2);
      GrownAt(h1, h2, n1, l);
      p := MergeOwned(l, r, roots);
      GrownTrans(h, h2, ropes);
      SliceBoth(Text(h, left), Text(h, right), i, j);
    }

    // ---------- flattening ----------

    /** `flatten`: copies the text of `rope` to the buffer of `owner`, from `off` on, and turns every
        node it passes into a slice of that buffer. */
    method Flatten(rope: nat, owner: nat, off: nat, ghost roots: multiset<nat>)
      requires Inv(ropes, next, roots) && owner in roots && rope in ropes && rope != owner
      requires Target(ropes, owner) && SlicesBelow(ropes, owner, off) && off + ropes[rope].weight <= ropes[owner].weight
      modifies `ropes
      ensures Inv(ropes, next, roots) && Flattened(old(ropes), ropes, rope, owner, off)
      ensures NodesAbove(old(ropes), ropes, rope)
      decreases rope
    {
      hide *;
      ghost var h := ropes;
      InvShapes(h, next, roots);
      ChildRank(h, next, rope);
      TextLength(h, next, rope);
      if ropes[rope].body.Leaf? {
        Filling(h, next, roots, owner, off, Text(h, rope));
        Copied(h, next, owner, off, rope);
        LeafChars(h, next, rope);
        ropes := Filled(ropes, owner, off, Characters(ropes, rope));
        return;
      }
      var left, right := ropes[rope].body.left, ropes[rope].body.right;
      NodeApart(h, owner, rope);
      FitsLeft(h, next, owner, off, rope);
      Flatten(left, owner, off, roots);
      ghost var h1 := ropes;
      InvShapes(h1, next, roots);
      HalfWay(h, h1, next, rope, owner, off);
      Flatten(right, owner, off + ropes[left].weight, roots);
      ghost var h2 := ropes;
      InvShapes(h2, next, roots);
      BothHalves(h, h1, h2, next, rope, owner, off);
      FlatParts(h, h2, rope, owner, off);
      TargetLeaf(h2, owner);
      Incref(owner, roots);
      CountedFlat(h2, owner, rope, off, next);
      Compressing(ropes, next, roots, rope, owner, off);
      ghost var h3 := ropes;
      ropes := Compressed(ropes, rope, owner, off);
      ghost var h4 := ropes;
      Releases(roots, left, right);
      NoneDying(h4);
      InvShapes(h4, next, roots + multiset{left} + multiset{right});
      Decref(left, roots + multiset{left} + multiset{right}, {});
      NoneDying(ropes);
      ghost var h5 := ropes;
      InvShapes(h5, next, roots + multiset{right});
      Decref(right, roots + multiset{right}, {});
      NoneDying(ropes);
      InvShapes(ropes, next, roots);
      ShrunkSame(h4, h5, next);
      ShrunkSame(h5, ropes, next);
      Done(h, h2, h3, h4, h5, ropes, next, rope, owner, off);
    }

    // ---------- strings ----------

    ghost predicate Valid()
      reads this
    {
      Inv(ropes, next, Held(strs))
    }

    /** What every string object says; `None` once it has been collected. */
    ghost function Contents(): (c: seq<Option<seq<char>>>)
      reads this
      ensures |c| == |strs| && forall k :: 0 <= k < |strs| ==> (c[k].Some? <==> strs[k].Some?)
    {
      ContentsOf(ropes, strs)
    }

    /** The string object exists. */
    ghost predicate Defined(a: nat)
      reads this
    {
      a < |Contents()| && Contents()[a].Some?
    }

    constructor ()
      ensures Valid() && Contents() == []
    {
      ropes, next, strs := map[], 0, [];
    }

    /** `make_str`: the string takes over the reference. */
    method MakeStr(rope: nat) returns (s: nat)
      requires Inv(ropes, next, Held(strs) + multiset{rope}) && rope in ropes
      modifies `strs
      ensures Valid() && s == |old(strs)| && strs == old(strs) + [Some(rope)]
      ensures Contents() == old(Contents()) + [Some(Text(ropes, rope))]
    {
      hide Inv, Text;
      HeldPush(strs, Some(rope));
      s := |strs|;
      strs := strs + [Some(rope)];
    }

    /** `pic_str_value`: a copy of `len` characters, or, for a negative length, a literal. */
    method StrValue(str: seq<char>, len: int) returns (s: nat)
      requires Valid() && (len > 0 ==> |str| >= len) && (len < 0 ==> |str| == 1 - len && str[-len] == NUL)
      modifies this
      ensures Valid() && s == |old(Contents())|
      ensures Contents() == old(Contents()) + [Some(str[..if len < 0 then -len else len])]
    {
      hide Inv, Text, Grown;
      ghost var h, n, ss := ropes, next, strs;
      var p;
      if len > 0 {
        p := MakeLeaf(Some(str[..len]), len, Held(strs));
      } else if len == 0 {
        p := MakeLit([NUL], 0, Held(strs));
      } else {
        p := MakeLit(str, -len, Held(strs));
      }
      ContentsGrown(h, ropes, n, ss);
      s := MakeStr(p);
    }

    /** `pic_str_cat` */
    method StrCat(a: nat, b: nat) returns (s: nat)
      requires Valid() && Defined(a) && Defined(b)
      modifies this
      ensures Valid() && s == |old(Contents())|
      ensures Contents() == old(Contents()) + [Some(old(Contents())[a].value + old(Contents())[b].value)]
    {
      hide Inv, Text, Grown;
      ghost var h, n, ss := ropes, next, strs;
      StringLive(h, n, strs, a);
      StringLive(h, n, strs, b);
      var p := Merge(strs[a], strs[b], Held(strs));
      ContentsGrown(h, ropes, n, ss);
      s := MakeStr(p);
    }

    /** `pic_str_sub` */
    method StrSub(a: nat, i: nat, j: nat) returns (s: nat)
      requires Valid() && Defined(a) && i <= j <= |Contents()[a].value|
      modifies this
      ensures Valid() && s == |old(Contents())|
      ensures Contents() == old(Contents()) + [Some(old(Contents())[a].value[i..j])]
    {
      hide Inv, Text, Grown;
      ghost var h, n, ss := ropes, next, strs;
      StringLive(h, n, strs, a);
      var p := Slice(strs[a].value, i, j, Held(strs));
      ContentsGrown(h, ropes, n, ss);
      s := MakeStr(p);
    }

    /** `pic_str`: the address of the string's characters, with a zero behind them. Path compression
        changes no string. */
    method Str(a: nat) returns (base: Base, off: nat)
      requires Valid() && Defined(a)
      modifies `ropes, `next
      ensures Valid() && Contents() == old(Contents())
      ensures var t := old(Contents())[a].value;
        && off + |t| < |Buffer(ropes, base)| && Buffer(ropes, base)[off..off + |t|] == t
        && Buffer(ropes, base)[off + |t|] == NUL
    {
      hide *;
      DefinedIs(this, a);
      ghost var h, n := ropes, next;
      ValidIs(this);
      StringLive(h, n, strs, a);
      ContentsAt(h, strs, a);
      ContentsIs(this);
      var rope := strs[a].value;
      if ropes[rope].body.Leaf? {
        LeafChars(h, n, rope);
        LeafRoom(h, n, rope);
        var b := ropes[rope].body;
        if Buffer(ropes, b.base)[b.off + ropes[rope].weight] == NUL {
          CharactersAre(h, rope);
          return b.base, b.off;
        }
      }
      var r := MakeLeaf(None, ropes[rope].weight, Held(strs));
      ghost var h1 := ropes;
      ContentsGrown(h, h1, n, strs);
      GrownAt(h, h1, n, rope);
      StartFlatten(h, h1, n, next, Held(strs), rope, r);
      Flatten(rope, r, 0, Held(strs) + multiset{r});
      FlatParts(h1, ropes, rope, r, 0);
      InvShapes(ropes, next, Held(strs) + multiset{r});
      InvShapes(h1, next, Held(strs) + multiset{r});
      InvShapes(h, n, Held(strs));
      FreshAddress(h, n, Held(strs));
      FlatContents(h1, ropes, strs, r, Held(strs), h);
      Forget(ropes, next, Held(strs), r);
      OwnBuffer(ropes, next, r);
      TargetBase(ropes, next, r);
      ValidIs(this);
      ContentsIs(this);
      base, off := Own(r), 0;
    }

    /** `str_update` */
    method StrUpdate(dst: nat, src: nat)
      requires Valid() && Defined(dst) && Defined(src)
      modifies `ropes, `strs
      ensures Valid() && Contents() == old(Contents())[dst := old(Contents())[src]]
    {
      hide *;
      DefinedIs(this, dst);
      DefinedIs(this, src);
      ghost var h, n, ss := ropes, next, strs;
      ValidIs(this);
      ContentsIs(this);
      StringLive(h, n, strs, dst);
      StringLive(h, n, strs, src);
      var d, s := strs[dst].value, strs[src].value;
      Incref(s, Held(strs));
      ghost var h1 := ropes;
      CountGrown(h, s, h[s].refcnt + 1);
      ContentsGrown(h, h1, n, strs);
      CountKeys(h, s, h[s].refcnt + 1);
      NoneDying(h1);
      HeldMore(strs, dst, s);
      Decref(d, Held(strs) + multiset{s}, {});
      NoneDying(ropes);
      strs := strs[dst := Some(s)];
      HeldReplaced(ss, dst, d, s);
      ValidIs(this);
      ContentsIs(this);
      InvShapes(ropes, next, Held(strs));
      ContentsReplaced(h1, ropes, next, ss, dst, src);
    }

    /** The string object is collected. */
    method Collect(a: nat)
      requires Valid() && Defined(a)
      modifies `ropes, `strs
      ensures Valid() && Contents() == old(Contents())[a := None]
    {
      hide *;
      DefinedIs(this, a);
      ghost var h, n, ss := ropes, next, strs;
      ValidIs(this);
      ContentsIs(this);
      StringLive(h, n, strs, a);
      NoneDying(h);
      HeldHas(strs, a);
      Decref(strs[a].value, Held(strs), {});
      NoneDying(ropes);
      strs := strs[a := None];
      HeldDropped(ss, a);
      ValidIs(this);
      ContentsIs(this);
      InvShapes(ropes, next, Held(strs));
      ContentsDropped(h, ropes, next, ss, a);
    }

    // ---------- the mutators ----------

    /** `string-set!`: false when the index is out of range. */
    method StringSet(a: nat, k: int, c: char) returns (ok: bool)
      requires Valid() && Defined(a)
      modifies this
      ensures Valid() && ok == (0 <= k < |old(Contents())[a].value|)
      ensures Only(old(Contents()), Contents(), a, if ok then old(Contents())[a].value[k := c]
                   else old(Contents())[a].value)
    {
      hide Valid, Contents;
      ghost var before := Contents();
      var len := StrLen(a);
      if k < 0 || len <= k {
        return false;
      }
      var x := StrSub(a, 0, k);
      ghost var c1 := Contents();
      var y := StrValue([c], 1);
      ghost var c2 := Contents();
      var z := StrSub(a, k + 1, len);
      ghost var c3 := Contents();
      var yz := StrCat(y, z);
      ghost var c4 := Contents();
      var xyz := StrCat(x, yz);
      ghost var c5 := Contents();
      StrUpdate(a, xyz);
      assert [c][..1] == [c] && c2[a] == before[a] && before[a].value[k + 1..len] == before[a].value[k + 1..];
      Assemble(before, c1, c2, c3, c4, c5, Contents(), a, before[a].value[..k], [c], before[a].value[k + 1..]);
      assert before[a].value[k := c] == before[a].value[..k] + ([c] + before[a].value[k + 1..]);
      ok := true;
    }

    /** `string-copy!`: false when a range is invalid. */
    method StringCopyInPlace(to: nat, at: int, from: nat, start: int, end: int) returns (ok: bool)
      requires Valid() && Defined(to) && Defined(from)
      modifies this
      ensures Valid()
      ensures var t, f := old(Contents())[to].value, old(Contents())[from].value;
        && ok == (0 <= at < |t| && 0 <= start <= end <= |f| && end - start <= |t| - at)
        && Only(old(Contents()), Contents(), to, if ok then t[..at] + f[start..end] + t[at + end - start..] else t)
    {
      hide Valid, Contents;
      ghost var before := Contents();
      var tolen := StrLen(to);
      var fromlen := StrLen(from);
      if at < 0 || tolen <= at || start < 0 || fromlen < start || end < start || fromlen < end
        || tolen - at < end - start {
        return false;
      }
      var x := StrSub(to, 0, at);
      ghost var c1 := Contents();
      var y := StrSub(from, start, end);
      ghost var c2 := Contents();
      var z := StrSub(to, at + end - start, tolen);
      ghost var c3 := Contents();
      var yz := StrCat(y, z);
      ghost var c4 := Contents();
      var xyz := StrCat(x, yz);
      ghost var c5 := Contents();
      StrUpdate(to, xyz);
      ghost var t, f := before[to].value, before[from].value;
      assert c1[from] == before[from] && c2[to] == before[to] && t[at + end - start..tolen] == t[at + end - start..];
      Assemble(before, c1, c2, c3, c4, c5, Contents(), to, t[..at], f[start..end], t[at + end - start..]);
      assert t[..at] + f[start..end] + t[at + end - start..] == t[..at] + (f[start..end] + t[at + end - start..]);
      ok := true;
    }

    /** `string-fill!`: false when the range is invalid. */
    method StringFill(a: nat, c: char, start: int, end: int) returns (ok: bool)
      requires Valid() && Defined(a)
      modifies this
      ensures Valid()
      ensures var t := old(Contents())[a].value;
        && ok == (0 <= start <= end <= |t|)
        && Only(old(Contents()), Contents(), a, if ok then t[..start] + Repeat(c, end - start) + t[end..] else t)
    {
      hide Valid, Contents;
      ghost var before := Contents();
      var len := StrLen(a);
      if start < 0 || len < start || end < start || len < end {
        return false;
      }
      var buf := Repeat(c, end - start);
      var x := StrSub(a, 0, start);
      ghost var c1 := Contents();
      var y := StrValue(buf, end - start);
      ghost var c2 := Contents();
      var z := StrSub(a, end, len);
      ghost var c3 := Contents();
      var yz := StrCat(y, z);
      ghost var c4 := Contents();
      var xyz := StrCat(x, yz);
      ghost var c5 := Contents();
      StrUpdate(a, xyz);
      ghost var t := before[a].value;
      assert buf[..end - start] == buf;
      assert c2[a] == before[a] && t[end..len] == t[end..];
      Assemble(before, c1, c2, c3, c4, c5, Contents(), a, t[..start], buf, t[end..]);
      assert t[..start] + buf + t[end..] == t[..start] + (buf + t[end..]);
      ok := true;
    }

    /** `pic_str_len` */
    method StrLen(a: nat) returns (len: nat)
      requires Valid() && Defined(a)
      ensures Contents()[a].Some? && len == |Contents()[a].value|
    {
      hide *;
      DefinedIs(this, a);
      ValidIs(this);
      ContentsIs(this);
      StringLive(ropes, next, strs, a);
      ContentsAt(ropes, strs, a);
      len := ropes[strs[a].value].weight;
    }
  }

  // ---------- facts for the steps above ----------

  /** Old ropes keep everything but their counts. */
  ghost predicate Grown(h: Heap, h1: Heap) {
    forall q :: q in h ==> q in h1 && h1[q].body == h[q].body && h1[q].weight == h[q].weight && h1[q].buf == h[q].buf
  }

  lemma GrownTrans(h: Heap, h1: Heap, h2: Heap)
    requires Grown(h, h1) && Grown(h1, h2)
    ensures Grown(h, h2)
  {
  }

  lemma GrownStep(h: Heap, h1: Heap, q: nat)
    requires Grown(h, h1) && q in h
    ensures q in h1 && h1[q].body == h[q].body && h1[q].weight == h[q].weight && h1[q].buf == h[q].buf
  {
  }

  lemma CountGrown(h: Heap, p: nat, n: nat)
    requires p in h
    ensures Grown(h, WithCount(h, p, n))
  {
  }

  lemma {:induction false} GrownAt(h: Heap, h1: Heap, next: nat, q: nat)
    requires Shapes(h, next) && Grown(h, h1) && q in h
    ensures q in h1 && Text(h1, q) == Text(h, q) && h1[q].weight == h[q].weight
    decreases q
  {
    assert Shaped(h, q);
    if h[q].body.Node? {
      GrownAt(h, h1, next, h[q].body.left);
      GrownAt(h, h1, next, h[q].body.right);
    } else if h[q].body.owner.Some? {
      assert Shaped(h, h[q].body.owner.value);
    }
  }

  lemma GrownSame(h: Heap, h1: Heap, next: nat)
    requires Shapes(h, next) && Grown(h, h1)
    ensures Same(h, h1, None) && forall q :: q in h ==> q in h1 && Text(h1, q) == Text(h, q)
  {
    hide Shapes, Text;
    forall q | q in h ensures q in h1 && Text(h1, q) == Text(h, q) && h1[q].weight == h[q].weight {
      GrownAt(h, h1, next, q);
    }
  }

  lemma NoneDying(h: Heap)
    ensures h - {} == h
  {
  }

  /** A new leaf with its own characters. */
  lemma LeafMade(h: Heap, p: nat, roots: multiset<nat>, b: Body, len: nat, buf: seq<char>)
    requires Inv(h, p, roots) && b.Leaf? && b.owner == None && b.off == 0 && (b.base == Own(p) || b.base.Lit?)
    requires var chars := if b.base.Lit? then b.base.text else buf; |chars| == len + 1 && chars[len] == NUL
    ensures var h1 := h[p := Rope(1, len, b, buf)];
      && Inv(h1, p + 1, roots + multiset{p}) && Grown(h, h1)
      && Text(h1, p) == if b.base.Lit? then b.base.text[..len] else buf[..len]
  {
    FreshAddress(h, p, roots);
    NoOut(roots, b);
    LeafFacts(h, p, b, len, buf);
    hide *;
    Allocated(h, p, roots, p, Rope(1, len, b, buf));
  }

  lemma LeafFacts(h: Heap, p: nat, b: Body, len: nat, buf: seq<char>)
    requires p !in h && b.Leaf? && b.owner == None && b.off == 0 && (b.base == Own(p) || b.base.Lit?)
    requires var chars := if b.base.Lit? then b.base.text else buf; |chars| == len + 1 && chars[len] == NUL
    ensures var h1 := h[p := Rope(1, len, b, buf)];
      Shaped(h1, p) && Grown(h, h1) && Text(h1, p) == if b.base.Lit? then b.base.text[..len] else buf[..len]
  {
  }

  lemma NoOut(roots: multiset<nat>, b: Body)
    requires b.Leaf? && b.owner == None
    ensures roots + Out(b) == roots
  {
  }

  lemma FreshAddress(h: Heap, next: nat, roots: multiset<nat>)
    requires Inv(h, next, roots)
    ensures next !in h && forall z :: z in h ==> z < next
  {
    hide Counts, Shaped;
  }

  /** The owner of a leaf's characters. */
  lemma SliceParts(h: Heap, next: nat, owner: nat, i: nat, j: nat)
    requires Shapes(h, next) && owner in h && h[owner].body.Leaf? && i <= j <= h[owner].weight
    ensures var b := h[owner].body;
      var o := if b.owner == None then owner else b.owner.value;
      o in h && h[o].body.Leaf? && h[o].body.owner == None && h[o].body.base == b.base
        && b.off + h[owner].weight < |Buffer(h, b.base)|
    ensures |Text(h, owner)| == h[owner].weight && owner < next
      && (h[owner].body.base.Own? ==> h[owner].body.base.r in h)
  {
    assert Shaped(h, owner);
    if h[owner].body.owner.Some? { assert Shaped(h, h[owner].body.owner.value); }
  }

  lemma SliceShaped(h: Heap, p: nat, o: nat, r: Rope)
    requires p !in h && o in h && h[o].body.Leaf? && h[o].body.owner == None
    requires r.body.Leaf? && r.body == Leaf(Some(o), h[o].body.base, r.body.off)
    requires r.body.off + r.weight < |Buffer(h, r.body.base)|
    ensures Shaped(h[p := r], p)
  {
  }

  lemma SliceText(h: Heap, h1: Heap, owner: nat, i: nat, j: nat, p: nat, o: nat)
    requires owner in h && h[owner].body.Leaf? && i <= j <= h[owner].weight && Grown(h, h1) && p in h1 && o in h
    requires h[owner].body.off + h[owner].weight <= |Buffer(h, h[owner].body.base)|
    requires h1[p].body == Leaf(Some(o), h[owner].body.base, h[owner].body.off + i) && h1[p].weight == j - i
    requires h[owner].body.base.Own? ==> h[owner].body.base.r in h
    ensures |Text(h, owner)| == h[owner].weight && Text(h1, p) == Text(h, owner)[i..j]
  {
    assert Buffer(h, h[owner].body.base) == Buffer(h1, h[owner].body.base);
  }

  /** A new slice, as `make_rope_slice` leaves the heap. */
  lemma SliceMade(h: Heap, p: nat, roots: multiset<nat>, owner: nat, i: nat, j: nat, o: nat)
    requires Inv(h, p, roots) && owner in h && h[owner].body.Leaf? && i <= j <= h[owner].weight
    requires o == if h[owner].body.owner == None then owner else h[owner].body.owner.value
    ensures p !in h && o in h
    ensures var r := Rope(1, j - i, Leaf(Some(o), h[owner].body.base, h[owner].body.off + i), []);
      var h1 := WithCount(h[p := r], o, h[p := r][o].refcnt + 1);
      && Inv(h1, p + 1, roots + multiset{p}) && Grown(h, h1) && p in h1
      && |Text(h, owner)| == h[owner].weight && Text(h1, p) == Text(h, owner)[i..j]
  {
    hide Inv, Shapes, Counts, Text, Shaped, Out;
    InvShapes(h, p, roots);
    FreshAddress(h, p, roots);
    SliceParts(h, p, owner, i, j);
    var r := Rope(1, j - i, Leaf(Some(o), h[owner].body.base, h[owner].body.off + i), []);
    CountUp(h, p, roots, o);
    var h0 := WithCount(h, o, h[o].refcnt + 1);
    SliceShaped(h0, p, o, r);
    OutIs(r.body, roots);
    Allocated(h0, p, roots, p, r);
    var h1 := WithCount(h[p := r], o, h[p := r][o].refcnt + 1);
    assert h0[p := r] == h1;
    SliceText(h, h1, owner, i, j, p, o);
  }

  lemma CountKeys(h: Heap, p: nat, n: nat)
    requires p in h
    ensures WithCount(h, p, n).Keys == h.Keys
  {
  }

  /** A new node, as `make_rope_node` leaves the heap. */
  lemma NodeMade(h: Heap, p: nat, roots: multiset<nat>, left: nat, right: nat)
    requires Inv(h, p, roots) && left in h && right in h
    ensures p !in h
    ensures var h0 := h[p := Rope(1, h[left].weight + h[right].weight, Node(left, right), [])];
      var h1 := WithCount(h0, left, h0[left].refcnt + 1);
      right in h1 &&
      var h2 := WithCount(h1, right, h1[right].refcnt + 1);
      && Inv(h2, p + 1, roots + multiset{p}) && Grown(h, h2) && p in h2 && h2[p].body == Node(left, right)
      && Text(h2, p) == Text(h, left) + Text(h, right)
  {
    hide Inv, Shapes, Counts, Text, Shaped, Out, Grown, Same;
    InvShapes(h, p, roots);
    FreshAddress(h, p, roots);
    var r := Rope(1, h[left].weight + h[right].weight, Node(left, right), []);
    CountUp(h, p, roots, left);
    var g1 := WithCount(h, left, h[left].refcnt + 1);
    CountUp(g1, p, roots + multiset{left}, right);
    var g2 := WithCount(g1, right, g1[right].refcnt + 1);
    NodeShaped(g2, p, r);
    OutIs(r.body, roots);
    assert roots + multiset{left} + multiset{right} == roots + Out(r.body) by {
      assert roots + multiset{right} + multiset{left} == roots + multiset{left} + multiset{right};
    }
    Allocated(g2, p, roots, p, r);
    var h0 := h[p := r];
    var h1 := WithCount(h0, left, h0[left].refcnt + 1);
    var h2 := WithCount(h1, right, h1[right].refcnt + 1);
    assert g2[p := r] == h2;
    NodeGrown(h, left, right, p, r);
    GrownAt(h, h2, p, left);
    GrownAt(h, h2, p, right);
    NodeText(h2, p);
  }

  lemma NodeGrown(h: Heap, left: nat, right: nat, p: nat, r: Rope)
    requires left in h && right in h && p !in h
    ensures var h0 := h[p := r];
      var h1 := WithCount(h0, left, h0[left].refcnt + 1);
      right in h1 && Grown(h, WithCount(h1, right, h1[right].refcnt + 1))
  {
  }

  lemma NodeShaped(h: Heap, p: nat, r: Rope)
    requires p !in h && r.body.Node? && r.body.left in h && r.body.right in h && r.body.left < p && r.body.right < p
    requires r.weight == h[r.body.left].weight + h[r.body.right].weight
    ensures Shaped(h[p := r], p)
  {
  }

  lemma NodeText(h: Heap, p: nat)
    requires p in h && h[p].body.Node? && h[p].body.left < p && h[p].body.right < p
    ensures Text(h, p) == Text(h, h[p].body.left) + Text(h, h[p].body.right)
  {
  }

  lemma WholeSlice(t: seq<char>)
    ensures t[0..|t|] == t
  {
  }

  lemma SliceLeft(a: seq<char>, b: seq<char>, i: nat, j: nat)
    requires i <= j <= |a|
    ensures (a + b)[i..j] == a[i..j]
  {
  }

  lemma SliceRight(a: seq<char>, b: seq<char>, i: nat, j: nat)
    requires |a| <= i <= j <= |a| + |b|
    ensures (a + b)[i..j] == b[i - |a|..j - |a|]
  {
  }

  lemma SliceBoth(a: seq<char>, b: seq<char>, i: nat, j: nat)
    requires i <= |a| <= j <= |a| + |b|
    ensures (a + b)[i..j] == a[i..|a|] + b[0..j - |a|]
  {
  }

  /** A rope that a node refers to, besides a reference from outside, has a count of at least two. */
  lemma Shared(h: Heap, next: nat, roots: multiset<nat>, p: nat, x: nat)
    requires Inv(h, next, roots) && p in h && h[p].body.Node? && (x == h[p].body.left || x == h[p].body.right)
      && x in roots
    ensures h[x].refcnt > 1
  {
    assert p < next && x in Out(h[p].body);
    RefsOf(h, next, p, x);
  }

  lemma DropTwo(roots: multiset<nat>, l: nat, r: nat, p: nat)
    ensures roots + multiset{l} + multiset{r} + multiset{p} - multiset{l} == roots + multiset{r} + multiset{p}
    ensures roots + multiset{r} + multiset{p} - multiset{r} == roots + multiset{p}
    ensures l in roots + multiset{l} + multiset{r} + multiset{p} && r in roots + multiset{r} + multiset{p}
  {
  }

  lemma RankIs(b: Body, p: nat)
    ensures b.Node? ==> Rank(b, p) == p + 2
    ensures b.Leaf? ==> Rank(b, p) == if b.owner.Some? then 1 else 0
  {
  }

  lemma OutIs(b: Body, rest: multiset<nat>)
    ensures b.Leaf? ==> rest + Out(b) == if b.owner.Some? then rest + multiset{b.owner.value} else rest
    ensures b.Node? ==> rest + Out(b) == rest + multiset{b.right} + multiset{b.left}
    ensures b.Node? ==> b.right in rest + multiset{b.right}
  {
  }

  lemma TakeBack(m: multiset<nat>, p: nat)
    ensures m + multiset{p} - multiset{p} == m
  {
  }

  lemma CountNodes(h: Heap, ropes: Heap, dying: set<nat>, p: nat, n: nat)
    requires h == ropes - dying && p in h
    ensures WithCount(ropes, p, n) - dying == WithCount(h, p, n)
    ensures NodesAbove(h, WithCount(h, p, n), p) && Shrunk(h, WithCount(h, p, n))
    ensures forall d :: d in dying ==> (d in WithCount(ropes, p, n) <==> d in ropes)
    ensures forall d :: d in dying && d in ropes ==> WithCount(ropes, p, n)[d] == ropes[d]
  {
  }

  lemma FreedNodes(h: Heap, ropes: Heap, dying: set<nat>, p: nat)
    requires h == ropes - dying && p in h
    ensures WithCount(ropes, p, 0) - (dying + {p}) == h - {p}
    ensures NodesAbove(h, h - {p}, p) && Shrunk(h, h - {p})
    ensures WithCount(ropes, p, 0).Keys == ropes.Keys
    ensures forall q :: q in ropes && q != p ==> WithCount(ropes, p, 0)[q] == ropes[q]
  {
  }

  /** Nodes keep their blocks when the references in `b`, the body of `p`, are given up. */
  ghost predicate NodesKept(h: Heap, h1: Heap, b: Body, p: nat) {
    forall y :: y in h && h[y].body.Node? && (b.Leaf? || y > p) ==> y in h1 && h1[y] == h[y]
  }

  lemma Holds(m: multiset<nat>, p: nat)
    ensures p in m + multiset{p}
  {
  }

  lemma KeptAll(h: Heap, b: Body, p: nat)
    ensures NodesKept(h, h, b, p) && Shrunk(h, h)
  {
  }

  lemma KeptByOwner(h: Heap, h1: Heap, b: Body, p: nat)
    requires b.Leaf? && b.owner.Some? && NodesAbove(h, h1, b.owner.value) && h[b.owner.value].body.Leaf?
    ensures NodesKept(h, h1, b, p)
  {
  }

  lemma KeptByChildren(h: Heap, h1: Heap, h2: Heap, b: Body, p: nat)
    requires b.Node? && b.left < p && b.right < p && NodesAbove(h, h1, b.left) && NodesAbove(h1, h2, b.right)
    requires Shrunk(h, h1) && Shrunk(h1, h2)
    ensures NodesKept(h, h2, b, p) && Shrunk(h, h2)
  {
  }

  /** The block itself goes last. */
  lemma GivenUp(h: Heap, ropes: Heap, dying: set<nat>, p: nat, b: Body)
    requires p in h && h[p].body == b && p !in dying
    requires NodesKept(h - {p}, ropes - (dying + {p}), b, p) && Shrunk(h - {p}, ropes - (dying + {p}))
    ensures ropes - {p} - dying == ropes - (dying + {p})
    ensures NodesAbove(h, ropes - {p} - dying, p) && Shrunk(h, ropes - {p} - dying)
    ensures forall d :: d in dying ==> (d in ropes - {p} <==> d in ropes)
  {
  }

  // ---------- facts for flattening ----------

  /** What `flatten` leaves behind. */
  ghost predicate Flattened(h: Heap, h1: Heap, p: nat, o: nat, off: nat) {
    && p in h && o in h && o in h1 && (forall q :: q in h1 ==> q in h)
    && Target(h1, o) && SlicesBelow(h1, o, off + h[p].weight) && Same(h, h1, Some(o))
    && h1[o].weight == h[o].weight && |h1[o].buf| == |h[o].buf| == h[o].weight + 1
    && off + h[p].weight <= h[o].weight
    && h1[o].buf[..off] == h[o].buf[..off] && h1[o].buf[off..off + h[p].weight] == Text(h, p)
  }

  /** The bytes that a leaf points to. */
  function Characters(h: Heap, p: nat): seq<char>
    requires p in h && h[p].body.Leaf? && h[p].body.off + h[p].weight <= |Buffer(h, h[p].body.base)|
  {
    Buffer(h, h[p].body.base)[h[p].body.off..h[p].body.off + h[p].weight]
  }

  lemma LeafChars(h: Heap, next: nat, p: nat)
    requires Shapes(h, next) && p in h && h[p].body.Leaf?
    ensures h[p].body.off + h[p].weight <= |Buffer(h, h[p].body.base)| && Characters(h, p) == Text(h, p)
  {
    assert Shaped(h, p);
  }

  lemma Copied(h: Heap, next: nat, o: nat, off: nat, p: nat)
    requires Shapes(h, next) && Target(h, o) && SlicesBelow(h, o, off) && p in h && p != o && h[p].body.Leaf?
    requires |Text(h, p)| == h[p].weight && off + h[p].weight <= h[o].weight && off + |Text(h, p)| <= |h[o].buf|
    requires var h1 := Filled(h, o, off, Text(h, p)); Same(h, h1, Some(o)) && Target(h1, o) && SlicesBelow(h1, o, off)
    ensures Flattened(h, Filled(h, o, off, Text(h, p)), p, o, off)
    ensures NodesAbove(h, Filled(h, o, off, Text(h, p)), p)
  {
    hide *;
    OwnBuffer(h, next, o);
    TargetLeaf(h, o);
    FilledIs(h, o, off, Text(h, p), p);
    FilledBuffer(h[o].buf, off, Text(h, p));
    SlicesMore(Filled(h, o, off, Text(h, p)), o, off, off + h[p].weight);
    FlatIntro(h, Filled(h, o, off, Text(h, p)), p, o, off);
  }

  lemma OwnBuffer(h: Heap, next: nat, o: nat)
    requires Shapes(h, next) && Target(h, o)
    ensures o in h && |h[o].buf| == h[o].weight + 1
  {
    assert Shaped(h, o);
  }

  lemma FilledIs(h: Heap, o: nat, off: nat, t: seq<char>, p: nat)
    requires o in h && h[o].body.Leaf? && off + |t| <= |h[o].buf| && p in h && h[p].body.Leaf?
    ensures var h1 := Filled(h, o, off, t);
      && o in h1 && h1[o].weight == h[o].weight && h1[o].buf == h[o].buf[..off] + t + h[o].buf[off + |t|..]
      && (forall q :: q in h1 ==> q in h) && NodesAbove(h, h1, p)
  {
  }

  lemma TargetLeaf(h: Heap, o: nat)
    requires Target(h, o)
    ensures h[o].body.Leaf?
  {
  }

  lemma SlicesMore(h: Heap, o: nat, off: nat, off1: nat)
    requires SlicesBelow(h, o, off) && off <= off1
    ensures SlicesBelow(h, o, off1)
  {
  }

  lemma FilledBuffer(b: seq<char>, off: nat, t: seq<char>)
    requires off + |t| <= |b|
    ensures var b1 := b[..off] + t + b[off + |t|..]; |b1| == |b| && b1[..off] == b[..off] && b1[off..off + |t|] == t
  {
  }

  lemma NodeApart(h: Heap, o: nat, p: nat)
    requires Target(h, o) && p in h && h[p].body.Node?
    ensures p < o
  {
  }

  lemma FitsLeft(h: Heap, next: nat, o: nat, off: nat, p: nat)
    requires Shapes(h, next) && p in h && h[p].body.Node? && p < o && o in h && off + h[p].weight <= h[o].weight
    ensures var l, r := h[p].body.left, h[p].body.right;
      l in h && r in h && l < p && r < p && l != o && r != o && off + h[l].weight <= h[o].weight
  {
    assert Shaped(h, p);
  }

  /** After the left half: the node still stands, and the right half may follow. */
  lemma HalfWay(h: Heap, h1: Heap, next: nat, p: nat, o: nat, off: nat)
    requires Shapes(h, next) && Shapes(h1, next) && p in h && h[p].body.Node? && p < o
    requires o in h && off + h[p].weight <= h[o].weight
    requires Flattened(h, h1, h[p].body.left, o, off) && NodesAbove(h, h1, h[p].body.left)
    ensures p in h1 && h1[p] == h[p]
    ensures var l, r := h[p].body.left, h[p].body.right;
      && l in h && l in h1 && r in h1 && h1[l].weight == h[l].weight && r != o
      && Target(h1, o) && SlicesBelow(h1, o, off + h1[l].weight) && off + h1[l].weight + h1[r].weight <= h1[o].weight
  {
    assert Shaped(h, p) && Shaped(h1, p);
    hide Text;
  }

  /** After the right half: the buffer holds the node's text. */
  lemma BothHalves(h: Heap, h1: Heap, h2: Heap, next: nat, p: nat, o: nat, off: nat)
    requires Shapes(h, next) && Shapes(h1, next) && Shapes(h2, next) && p in h && h[p].body.Node? && p < o
    requires Flattened(h, h1, h[p].body.left, o, off) && NodesAbove(h, h1, h[p].body.left)
    requires p in h1 && h1[p] == h[p] && h[p].body.left in h1
    requires Flattened(h1, h2, h[p].body.right, o, off + h1[h[p].body.left].weight)
      && NodesAbove(h1, h2, h[p].body.right)
    ensures p in h2 && h2[p] == h[p] && Flattened(h, h2, p, o, off) && Text(h2, p) == Text(h, p)
    ensures forall y :: y in h && h[y].body.Node? && y >= p ==> y in h2 && h2[y] == h[y]
  {
    hide *;
    var l, r := h[p].body.left, h[p].body.right;
    ChildRank(h, next, p);
    ChildRank(h1, next, p);
    TextLength(h, next, l);
    TextLength(h1, next, r);
    NodeText(h, p);
    NodesBoth(h, h1, h2, p, l, r);
    FlatParts(h, h1, l, o, off);
    FlatParts(h1, h2, r, o, off + h1[l].weight);
    SameAt(h, h1, Some(o), r);
    SameTrans(h, h1, h2, Some(o));
    SameAt(h, h2, Some(o), p);
    JoinHalves(h[o].buf, h1[o].buf, h2[o].buf, off, Text(h, l), Text(h, r));
    FlatIntro(h, h2, p, o, off);
  }

  lemma SameAt(h: Heap, h1: Heap, x: Option<nat>, p: nat)
    requires Same(h, h1, x) && p in h && p in h1 && x != Some(p)
    ensures Text(h1, p) == Text(h, p) && h1[p].weight == h[p].weight
  {
    hide Text;
  }

  lemma NodesBoth(h: Heap, h1: Heap, h2: Heap, p: nat, l: nat, r: nat)
    requires NodesAbove(h, h1, l) && NodesAbove(h1, h2, r) && l < p && r < p
    ensures forall y :: y in h && h[y].body.Node? && y >= p ==> y in h2 && h2[y] == h[y]
  {
  }

  lemma FlatParts(h: Heap, h1: Heap, p: nat, o: nat, off: nat)
    requires Flattened(h, h1, p, o, off)
    ensures p in h && o in h && o in h1 && (forall q :: q in h1 ==> q in h)
    ensures Target(h1, o) && SlicesBelow(h1, o, off + h[p].weight) && Same(h, h1, Some(o))
    ensures h1[o].weight == h[o].weight && |h1[o].buf| == |h[o].buf| == h[o].weight + 1
      && off + h[p].weight <= h[o].weight
    ensures h1[o].buf[..off] == h[o].buf[..off] && h1[o].buf[off..off + h[p].weight] == Text(h, p)
  {
    hide Text, Target, SlicesBelow, Same;
  }

  lemma FlatIntro(h: Heap, h1: Heap, p: nat, o: nat, off: nat)
    requires p in h && o in h && o in h1 && (forall q :: q in h1 ==> q in h)
    requires Target(h1, o) && SlicesBelow(h1, o, off + h[p].weight) && Same(h, h1, Some(o))
    requires h1[o].weight == h[o].weight && |h1[o].buf| == |h[o].buf| == h[o].weight + 1
      && off + h[p].weight <= h[o].weight
    requires h1[o].buf[..off] == h[o].buf[..off] && h1[o].buf[off..off + h[p].weight] == Text(h, p)
    ensures Flattened(h, h1, p, o, off)
  {
    hide Text, Target, SlicesBelow, Same;
  }

  lemma JoinHalves(b: seq<char>, b1: seq<char>, b2: seq<char>, off: nat, s: seq<char>, t: seq<char>)
    requires off + |s| + |t| <= |b| == |b1| == |b2|
    requires b1[..off] == b[..off] && b1[off..off + |s|] == s
    requires b2[..off + |s|] == b1[..off + |s|] && b2[off + |s|..off + |s| + |t|] == t
    ensures b2[..off] == b[..off] && b2[off..off + |s| + |t|] == s + t
  {
    assert b2[..off] == b2[..off + |s|][..off] && b1[..off] == b1[..off + |s|][..off];
    assert b2[off..off + |s|] == b2[..off + |s|][off..] && b1[off..off + |s|] == b1[..off + |s|][off..];
    assert b2[off..off + |s| + |t|] == b2[off..off + |s|] + b2[off + |s|..off + |s| + |t|];
  }

  /** Counting the new slice does not disturb the buffer. */
  lemma CountedFlat(h: Heap, o: nat, p: nat, off: nat, next: nat)
    requires Shapes(h, next) && Target(h, o) && p in h && h[p].body.Node? && off + h[p].weight <= h[o].weight
    requires off + h[p].weight <= |h[o].buf| && h[o].buf[off..off + h[p].weight] == Text(h, p)
    ensures var h1 := WithCount(h, o, h[o].refcnt + 1);
      && p in h1 && h1[p] == h[p] && o in h1 && h1[o].body == Leaf(None, Own(o), 0) && h1[o].weight == h[o].weight
      && h1[o].buf == h[o].buf
      && h1[o].buf[off..off + h1[p].weight] == Text(h1, p) && Grown(h, h1) && Same(h, h1, None) && h1.Keys == h.Keys
      && forall y :: y in h && y != o ==> h1[y] == h[y]
  {
    hide Text, Shapes, Grown, Same;
    CountGrown(h, o, h[o].refcnt + 1);
    GrownSame(h, WithCount(h, o, h[o].refcnt + 1), next);
    SameAt(h, WithCount(h, o, h[o].refcnt + 1), None, p);
  }

  lemma Releases(roots: multiset<nat>, l: nat, r: nat)
    ensures roots + multiset{l} + multiset{r} - multiset{l} == roots + multiset{r}
    ensures roots + multiset{r} - multiset{r} == roots
    ensures l in roots + multiset{l} + multiset{r} && r in roots + multiset{r}
  {
  }

  /** Putting the last steps of `flatten` together. */
  lemma Done(h: Heap, h2: Heap, h3: Heap, h4: Heap, h5: Heap, h6: Heap, next: nat, p: nat, o: nat, off: nat)
    requires Flattened(h, h2, p, o, off) && p in h && h[p].body.Node? && p in h2 && h2[p] == h[p] && p < o
    requires forall y :: y in h && h[y].body.Node? && y >= p ==> y in h2 && h2[y] == h[y]
    requires h3 == WithCount(h2, o, h2[o].refcnt + 1) && Same(h2, h3, None)
    requires h4 == Compressed(h3, p, o, off) && Same(h3, h4, None)
    requires Shrunk(h4, h5) && Shrunk(h5, h6) && Same(h4, h5, None) && Same(h5, h6, None) && o in h6
    requires h[p].body.left < p && h[p].body.right < p && h[p].body.right in h5
    requires NodesAbove(h4, h5, h[p].body.left) && NodesAbove(h5, h6, h[p].body.right) && h2[o].body.Leaf?
    ensures Flattened(h, h6, p, o, off) && NodesAbove(h, h6, p)
  {
    hide Text, Same, NodesAbove, Flattened, SlicesBelow, Target;
    FlatParts(h, h2, p, o, off);
    Steps(h2, h3, h4, h5, h6, p, o, off);
    SameAll(h, h2, h3, h4, h5, h6, o);
    SlicesAfter(h2, h4, h6, p, o, off);
    TargetAfter(h2, h4, h6, p, o, off);
    NodesAfter(h, h2, h4, h5, h6, p, o, off);
    FlatIntro(h, h6, p, o, off);
  }

  lemma Steps(h2: Heap, h3: Heap, h4: Heap, h5: Heap, h6: Heap, p: nat, o: nat, off: nat)
    requires p in h2 && o in h2 && o in h6 && p != o
    requires h3 == WithCount(h2, o, h2[o].refcnt + 1) && h4 == Compressed(h3, p, o, off) && Shrunk(h4, h5)
      && Shrunk(h5, h6)
    ensures forall q :: q in h6 ==>
      q in h5 && q in h4 && q in h3 && q in h2 && h6[q].body == h4[q].body
      && h6[q].weight == h4[q].weight
    ensures h6[o].weight == h2[o].weight && h6[o].buf == h2[o].buf && h6[o].body == h2[o].body
  {
  }

  lemma TargetAfter(h2: Heap, h4: Heap, h6: Heap, p: nat, o: nat, off: nat)
    requires Target(h2, o) && p in h2 && p != o && h4 == Compressed(WithCount(h2, o, h2[o].refcnt + 1), p, o, off)
      && o in h6
    requires forall q :: q in h6 ==> q in h4 && h6[q].body == h4[q].body
    ensures Target(h6, o)
  {
  }

  lemma NodesAfter(h: Heap, h2: Heap, h4: Heap, h5: Heap, h6: Heap, p: nat, o: nat, off: nat)
    requires p in h && h[p].body.Node? && p in h2 && o in h2 && h2[o].body.Leaf? && p != o && h[p].body.left < p
      && h[p].body.right < p
    requires forall y :: y in h && h[y].body.Node? && y >= p ==> y in h2 && h2[y] == h[y]
    requires h4 == Compressed(WithCount(h2, o, h2[o].refcnt + 1), p, o, off)
    requires NodesAbove(h4, h5, h[p].body.left) && NodesAbove(h5, h6, h[p].body.right)
    ensures NodesAbove(h, h6, p)
  {
  }

  lemma SameAll(h: Heap, h2: Heap, h3: Heap, h4: Heap, h5: Heap, h6: Heap, o: nat)
    requires Same(h, h2, Some(o)) && Same(h2, h3, None) && Same(h3, h4, None) && Same(h4, h5, None)
      && Same(h5, h6, None)
    requires forall q :: q in h6 ==> q in h5 && q in h4 && q in h3 && q in h2 && q in h
    ensures Same(h, h6, Some(o))
  {
    hide Text;
  }

  lemma SlicesAfter(h2: Heap, h4: Heap, h6: Heap, p: nat, o: nat, off: nat)
    requires p in h2 && SlicesBelow(h2, o, off + h2[p].weight) && o in h2
    requires h4 == Compressed(WithCount(h2, o, h2[o].refcnt + 1), p, o, off)
    requires forall q :: q in h6 ==> q in h4 && h6[q].body == h4[q].body && h6[q].weight == h4[q].weight
    ensures SlicesBelow(h6, o, off + h2[p].weight)
  {
  }

  // ---------- facts about string objects ----------

  ghost function ContentsOf(h: Heap, strs: seq<Option<nat>>): (c: seq<Option<seq<char>>>)
    ensures |c| == |strs| && forall k :: 0 <= k < |strs| ==> (c[k].Some? <==> strs[k].Some?)
  {
    seq(|strs|, k requires 0 <= k < |strs| => if strs[k].Some? then Some(Text(h, strs[k].value)) else None)
  }

  lemma ContentsAt(h: Heap, strs: seq<Option<nat>>, k: nat)
    requires k < |strs|
    ensures ContentsOf(h, strs)[k] == if strs[k].Some? then Some(Text(h, strs[k].value)) else None
  {
  }

  lemma ValidIs(m: Memory)
    ensures m.Valid() <==> Inv(m.ropes, m.next, Held(m.strs))
  {
  }

  lemma DefinedIs(m: Memory, a: nat)
    ensures m.Defined(a) <==> a < |m.strs| && m.strs[a].Some?
  {
    hide ContentsOf;
  }

  lemma ContentsIs(m: Memory)
    ensures m.Contents() == ContentsOf(m.ropes, m.strs)
  {
  }

  lemma StringLive(h: Heap, next: nat, strs: seq<Option<nat>>, k: nat)
    requires Inv(h, next, Held(strs)) && k < |strs| && strs[k].Some?
    ensures strs[k].value in h && Shapes(h, next) && |Text(h, strs[k].value)| == h[strs[k].value].weight
  {
    HeldHas(strs, k);
    TextLength(h, next, strs[k].value);
  }

  /** Strings keep their texts while ropes are added. */
  lemma ContentsGrown(h: Heap, h1: Heap, next: nat, strs: seq<Option<nat>>)
    requires Inv(h, next, Held(strs)) && Grown(h, h1)
    ensures ContentsOf(h1, strs) == ContentsOf(h, strs)
  {
    hide Text, Grown, Inv, Held;
    forall k | 0 <= k < |strs| ensures ContentsOf(h1, strs)[k] == ContentsOf(h, strs)[k] {
      if strs[k].Some? {
        StringLive(h, next, strs, k);
        GrownAt(h, h1, next, strs[k].value);
      }
    }
  }

  lemma ContentsSame(h: Heap, h1: Heap, strs: seq<Option<nat>>, k: nat)
    requires k < |strs| && Same(h, h1, None) && (strs[k].Some? ==> strs[k].value in h && strs[k].value in h1)
    ensures ContentsOf(h1, strs)[k] == ContentsOf(h, strs)[k]
  {
    hide Text;
  }

  lemma LeafRoom(h: Heap, next: nat, p: nat)
    requires Shapes(h, next) && p in h && h[p].body.Leaf?
    ensures h[p].body.off + h[p].weight < |Buffer(h, h[p].body.base)|
  {
    assert Shaped(h, p);
  }

  lemma CharactersAre(h: Heap, p: nat)
    requires p in h && h[p].body.Leaf? && h[p].body.off + h[p].weight <= |Buffer(h, h[p].body.base)|
    ensures Characters(h, p) == Buffer(h, h[p].body.base)[h[p].body.off..h[p].body.off + h[p].weight]
  {
  }

  /** A fresh buffer is not sliced yet. */
  lemma StartFlatten(h: Heap, h1: Heap, n: nat, next: nat, roots: multiset<nat>, p: nat, r: nat)
    requires Inv(h, n, roots) && Inv(h1, next, roots + multiset{r}) && r == n && p in h && p in h1
    requires h1.Keys == h.Keys + {r} && Grown(h, h1) && r in h1 && h1[r].body == Leaf(None, Own(r), 0)
      && h1[r].weight == h[p].weight
    ensures Target(h1, r) && SlicesBelow(h1, r, 0) && p != r && r in roots + multiset{r}
      && 0 + h1[p].weight <= h1[r].weight
  {
    FreshAddress(h, n, roots);
    forall q | q in h1 && q != r && h1[q].body.Leaf? && h1[q].body.base == Own(r) ensures false {
      assert q in h && h[q].body.base == Own(r);
      assert Shaped(h, q);
      BaseLive(h, n, q);
    }
    hide Inv;
  }

  lemma BaseLive(h: Heap, next: nat, q: nat)
    requires Shapes(h, next) && q in h && h[q].body.Leaf? && h[q].body.base.Own?
    ensures h[q].body.base.r in h
  {
    assert Shaped(h, q);
    if h[q].body.owner.Some? { assert Shaped(h, h[q].body.owner.value); }
  }

  lemma FlatContents(h1: Heap, h2: Heap, strs: seq<Option<nat>>, r: nat, roots: multiset<nat>, h: Heap)
    requires Same(h1, h2, Some(r)) && ContentsOf(h1, strs) == ContentsOf(h, strs)
    requires roots == Held(strs) && r !in h
    requires forall p :: p in roots ==> p in h
    requires forall p :: p in roots + multiset{r} ==> p in h1 && p in h2
    ensures ContentsOf(h2, strs) == ContentsOf(h, strs)
  {
    hide Text, Held;
    forall k | 0 <= k < |strs| ensures ContentsOf(h2, strs)[k] == ContentsOf(h1, strs)[k] {
      if strs[k].Some? {
        HeldHas(strs, k);
        assert strs[k].value in roots + multiset{r};
        SameAt(h1, h2, Some(r), strs[k].value);
      }
    }
  }

  lemma TargetBase(h: Heap, next: nat, r: nat)
    requires Shapes(h, next) && Target(h, r)
    ensures r in h && Buffer(h, Own(r)) == h[r].buf && |h[r].buf| == h[r].weight + 1 && h[r].buf[h[r].weight] == NUL
  {
    assert Shaped(h, r);
  }

  lemma HeldMore(strs: seq<Option<nat>>, k: nat, s: nat)
    requires k < |strs| && strs[k].Some?
    ensures strs[k].value in Held(strs) + multiset{s}
  {
    HeldHas(strs, k);
  }

  lemma HeldReplaced(strs: seq<Option<nat>>, k: nat, d: nat, s: nat)
    requires k < |strs| && strs[k] == Some(d)
    ensures Held(strs[k := Some(s)]) == Held(strs) + multiset{s} - multiset{d}
  {
    HeldUpdate(strs, k, Some(s));
    assert Held(strs[k := Some(s)]) == Held(strs[k := Some(s)]) + multiset{d} - multiset{d};
  }

  lemma HeldDropped(strs: seq<Option<nat>>, k: nat)
    requires k < |strs| && strs[k].Some?
    ensures Held(strs[k := None]) == Held(strs) - multiset{strs[k].value}
  {
    HeldUpdate(strs, k, None);
    assert Held(strs[k := None]) == Held(strs[k := None]) + One(strs[k]) - One(strs[k]);
  }

  lemma ContentsReplaced(h: Heap, h1: Heap, next: nat, strs: seq<Option<nat>>, d: nat, s: nat)
    requires d < |strs| && s < |strs| && strs[d].Some? && strs[s].Some? && Shrunk(h, h1)
    requires Inv(h1, next, Held(strs[d := strs[s]]))
    ensures ContentsOf(h1, strs[d := strs[s]]) == ContentsOf(h, strs)[d := ContentsOf(h, strs)[s]]
  {
    var strs1 := strs[d := strs[s]];
    InvShapes(h1, next, Held(strs1));
    ShrunkSame(h, h1, next);
    hide Text, Inv, Held;
    forall k | 0 <= k < |strs| ensures ContentsOf(h1, strs1)[k] == ContentsOf(h, strs)[d := ContentsOf(h, strs)[s]][k] {
      if strs1[k].Some? { HeldHas(strs1, k); }
      ContentsSame(h, h1, strs1, k);
    }
  }

  lemma ContentsDropped(h: Heap, h1: Heap, next: nat, strs: seq<Option<nat>>, d: nat)
    requires d < |strs| && Shrunk(h, h1) && Inv(h1, next, Held(strs[d := None]))
    ensures ContentsOf(h1, strs[d := None]) == ContentsOf(h, strs)[d := None]
  {
    var strs1 := strs[d := None];
    InvShapes(h1, next, Held(strs1));
    ShrunkSame(h, h1, next);
    hide Text, Inv, Held;
    forall k | 0 <= k < |strs| ensures ContentsOf(h1, strs1)[k] == ContentsOf(h, strs)[d := None][k] {
      if strs1[k].Some? { HeldHas(strs1, k); }
      ContentsSame(h, h1, strs1, k);
    }
  }

  function Repeat(c: char, n: nat): (s: seq<char>)
    ensures |s| == n && forall i :: 0 <= i < n ==> s[i] == c
  {
    seq(n, i => c)
  }

  /** Of the strings there were, only `a` says something else now. */
  ghost predicate Only(before: seq<Option<seq<char>>>, after: seq<Option<seq<char>>>, a: nat, text: seq<char>) {
    a < |before| <= |after| && after[..|before|] == before[a := Some(text)]
  }

  /** The five strings that a mutator makes, and the update. */
  lemma Assemble(before: seq<Option<seq<char>>>, c1: seq<Option<seq<char>>>, c2: seq<Option<seq<char>>>,
                 c3: seq<Option<seq<char>>>,
                 c4: seq<Option<seq<char>>>, c5: seq<Option<seq<char>>>, after: seq<Option<seq<char>>>,
                 a: nat, x: seq<char>, y: seq<char>, z: seq<char>)
    requires a < |before| && c1 == before + [Some(x)] && c2 == c1 + [Some(y)] && c3 == c2 + [Some(z)]
    requires var n := |before|;
      c4 == c3 + [Some(c3[n + 1].value + c3[n + 2].value)] && c5 == c4 + [Some(c4[n].value + c4[n + 3].value)]
        && after == c5[a := c5[n + 4]]
    ensures Only(before, after, a, x + (y + z))
  {
    var n := |before|;
    assert c3[n + 1] == Some(y) && c3[n + 2] == Some(z) && c4[n] == Some(x);
  }
}
