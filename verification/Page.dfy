/** A heap page of the bitmap collector: allocation, marking and sweeping of unit runs. */
module Page {
  import opened Util
  import opened Bitmap
  import opened PopCount

  /** The run of units of the object whose header is unit `o`. */
  predicate InObject(o: nat, sizes: seq<nat>, i: nat) {
    o < |sizes| && o <= i < o + sizes[o]
  }

  ghost predicate Covered(objs: set<nat>, sizes: seq<nat>, i: nat) {
    exists o :: o in objs && InObject(o, sizes, i)
  }

  /** Runs lie inside the page and do not overlap. */
  ghost predicate RunsOk(objs: set<nat>, sizes: seq<nat>) {
    && (forall o :: o in objs ==> o < |sizes| && sizes[o] > 0 && o + sizes[o] <= |sizes|)
    && (forall o, p :: o in objs && p in objs && o < p ==> o + sizes[o] <= p)
  }

  /** The bitmap has exactly the bits of the runs of `objs`. */
  ghost predicate Shows(bm: seq<bv32>, objs: set<nat>, sizes: seq<nat>) {
    forall i: nat :: i < 32 * |bm| ==> (Bit(bm, i) <==> Covered(objs, sizes, i))
  }

  lemma OnlyOwner(objs: set<nat>, sizes: seq<nat>, o: nat, p: nat, i: nat)
    requires RunsOk(objs, sizes) && o in objs && p in objs && InObject(o, sizes, i) && InObject(p, sizes, i)
    ensures o == p
  {
  }

  // ---------- units in use ----------

  /** The units of the objects whose headers are below `n`. */
  ghost function UnitsBelow(objs: set<nat>, sizes: seq<nat>, n: nat): nat
    requires n <= |sizes|
  {
    if n == 0 then 0 else UnitsBelow(objs, sizes, n - 1) + if n - 1 in objs then sizes[n - 1] else 0
  }

  /** The total size of the objects of a page. */
  ghost function UnitsUsed(objs: set<nat>, sizes: seq<nat>): nat {
    UnitsBelow(objs, sizes, |sizes|)
  }

  /** The units of the runs whose headers are below `n`. */
  ghost function RunsBelow(objs: set<nat>, sizes: seq<nat>, n: nat): set<nat> {
    set i: nat, o: nat | i < |sizes| && o < n && o in objs && InObject(o, sizes, i) :: i
  }

  ghost function Run(o: nat, n: nat): (r: set<nat>)
    ensures |r| == n && forall i :: i in r <==> o <= i < o + n
  {
    if n == 0 then {} else Run(o, n - 1) + {o + n - 1}
  }

  lemma {:induction false} RunsSize(objs: set<nat>, sizes: seq<nat>, n: nat)
    requires RunsOk(objs, sizes) && n <= |sizes|
    ensures |RunsBelow(objs, sizes, n)| == UnitsBelow(objs, sizes, n)
    decreases n
  {
    if n == 0 {
      assert RunsBelow(objs, sizes, 0) == {};
    } else {
      RunsSize(objs, sizes, n - 1);
      var o := n - 1;
      if o in objs {
        OneMoreRun(objs, sizes, o);
      } else {
        assert RunsBelow(objs, sizes, n) == RunsBelow(objs, sizes, o);
      }
    }
  }

  lemma OneMoreRun(objs: set<nat>, sizes: seq<nat>, o: nat)
    requires RunsOk(objs, sizes) && o in objs
    ensures RunsBelow(objs, sizes, o + 1) == RunsBelow(objs, sizes, o) + Run(o, sizes[o])
    ensures RunsBelow(objs, sizes, o) !! Run(o, sizes[o])
  {
    var below, run := RunsBelow(objs, sizes, o), Run(o, sizes[o]);
    forall i: nat ensures i in RunsBelow(objs, sizes, o + 1) <==> i in below || i in run {
      if i in run { assert InObject(o, sizes, i); }
    }
    forall i | i in below ensures i !in run {
      var p: nat :| p < o && p in objs && InObject(p, sizes, i);
      assert p + sizes[p] <= o;
    }
  }

  /** A bitmap that shows the runs of some objects has one bit for each unit of theirs. */
  lemma BitsAreUnits(bm: seq<bv32>, objs: set<nat>, sizes: seq<nat>)
    requires RunsOk(objs, sizes) && Shows(bm, objs, sizes) && |sizes| <= 32 * |bm|
    ensures |SetUnits(bm, 32 * |bm|)| == UnitsUsed(objs, sizes)
  {
    hide Bit;
    RunsSize(objs, sizes, |sizes|);
    var u, r := SetUnits(bm, 32 * |bm|), RunsBelow(objs, sizes, |sizes|);
    forall i: nat ensures i in u <==> i in r {
      if i in u {
        var o :| o in objs && InObject(o, sizes, i);
        assert o < |sizes|;
      }
      if i in r {
        var o: nat :| o < |sizes| && o in objs && InObject(o, sizes, i);
        assert Covered(objs, sizes, i);
      }
    }
    assert u == r;
  }

  /** Some unit of the run is in use. */
  ghost predicate Taken(bm: seq<bv32>, o: nat, n: nat)
    requires o + n <= 32 * |bm|
  {
    exists i: nat :: o <= i < o + n && Bit(bm, i)
  }

  /** An object is marked exactly when a bit of its run is set. */
  lemma MarkedRun(bm: seq<bv32>, objs: set<nat>, marked: set<nat>, sizes: seq<nat>, o: nat)
    requires RunsOk(objs, sizes) && marked <= objs && o in objs && Shows(bm, marked, sizes) && |sizes| <= 32 * |bm|
    ensures o + sizes[o] <= 32 * |bm| && (o in marked <==> Taken(bm, o, sizes[o]))
  {
    hide Bit;
    if o in marked {
      assert InObject(o, sizes, o);
      assert Bit(bm, o);
    }
    forall i: nat | o <= i < o + sizes[o] && Bit(bm, i)
      ensures o in marked
    {
      var p :| p in marked && InObject(p, sizes, i);
      assert InObject(o, sizes, i);
      OnlyOwner(objs, sizes, o, p, i);
    }
  }

  /** Setting the bits of one more run. */
  lemma ShowsMore(bm: seq<bv32>, bm1: seq<bv32>, marked: set<nat>, sizes: seq<nat>, o: nat)
    requires Shows(bm, marked, sizes) && |bm1| == |bm| && o < |sizes|
    requires forall i: nat :: i < 32 * |bm| ==> (Bit(bm1, i) <==> Bit(bm, i) || o <= i < o + sizes[o])
    ensures Shows(bm1, marked + {o}, sizes)
  {
    hide Bit;
    forall i: nat | i < 32 * |bm|
      ensures Bit(bm1, i) <==> Covered(marked + {o}, sizes, i)
    {
      if Covered(marked, sizes, i) {
        var p :| p in marked && InObject(p, sizes, i);
        assert p in marked + {o};
      }
      if o <= i < o + sizes[o] {
        assert InObject(o, sizes, i) && o in marked + {o};
      }
      if Covered(marked + {o}, sizes, i) {
        var p :| p in marked + {o} && InObject(p, sizes, i);
        if p != o { assert p in marked; }
      }
    }
  }

  /** Sizes of free units do not matter. */
  lemma ShowsResized(bm: seq<bv32>, marked: set<nat>, sizes: seq<nat>, o: nat, n: nat)
    requires Shows(bm, marked, sizes) && o < |sizes| && o !in marked
    ensures Shows(bm, marked, sizes[o := n])
  {
    hide Bit;
    forall i: nat | i < 32 * |bm|
      ensures Covered(marked, sizes, i) <==> Covered(marked, sizes[o := n], i)
    {
      if Covered(marked, sizes, i) {
        var p :| p in marked && InObject(p, sizes, i);
        assert InObject(p, sizes[o := n], i);
      }
      if Covered(marked, sizes[o := n], i) {
        var p :| p in marked && InObject(p, sizes[o := n], i);
        assert InObject(p, sizes, i);
      }
    }
  }

  /** A run without set bits overlaps no object. */
  lemma FreeRun(bm: seq<bv32>, objs: set<nat>, sizes: seq<nat>, o: nat, n: nat)
    requires RunsOk(objs, sizes) && Shows(bm, objs, sizes) && 0 < n && o + n <= |sizes| <= 32 * |bm|
    requires forall i: nat :: o <= i < o + n ==> !Bit(bm, i)
    ensures o !in objs && RunsOk(objs + {o}, sizes[o := n])
  {
    hide Bit;
    var sizes1 := sizes[o := n];
    forall i: nat | o <= i < o + n
      ensures !Covered(objs, sizes, i)
    {
      assert !Bit(bm, i);
    }
    forall p | p in objs
      ensures p != o && (p < o ==> p + sizes[p] <= o) && (o < p ==> o + n <= p)
    {
      assert !Covered(objs, sizes, o) && !InObject(p, sizes, o);
      assert o <= p < o + n ==> !Covered(objs, sizes, p) && !InObject(p, sizes, p);
    }
  }

  ghost predicate Apart(a: object, b: object, c: object) {
    a != b && a != c && b != c
  }

  /** The first free run of `n` units from unit `first` on, before the last place of a page. */
  ghost function FirstFree(bits: seq<bv32>, units: nat, first: nat, n: nat): (r: Option<nat>)
    requires units <= 32 * |bits|
    ensures r.None? <==> forall o: nat :: first <= o < units - n ==> Taken(bits, o, n)
    ensures r.Some? ==> first <= r.value < units - n && !Taken(bits, r.value, n)
    ensures r.Some? ==> forall o: nat :: first <= o < r.value ==> Taken(bits, o, n)
    decreases units - first
  {
    if first >= units - n then None
    else if Taken(bits, first, n) then FirstFree(bits, units, first + 1, n)
    else Some(first)
  }

  lemma FirstIs(bits: seq<bv32>, units: nat, first: nat, n: nat, o: nat)
    requires units <= 32 * |bits| && first <= o < units - n
    requires forall i: nat :: o <= i < o + n ==> !Bit(bits, i)
    requires forall p: nat :: first <= p < o ==> Taken(bits, p, n)
    ensures FirstFree(bits, units, first, n) == Some(o)
  {
    hide Bit, FirstFree;
    assert !Taken(bits, o, n);
  }

  class HeapPage {
    const units: nat
    const bitmap: array<bv32>
    const shadow: array<bv32>
    const sizes: array<nat>
    var freep: nat
    /** The objects allocated in the page, and those whose runs the bitmap shows. */
    ghost var objs: set<nat>
    ghost var marked: set<nat>

    ghost predicate Valid()
      reads this, bitmap, shadow, sizes
    {
      && Apart(bitmap, shadow, sizes) && bitmap.Length == shadow.Length && sizes.Length == units <= 32 * bitmap.Length
      && RunsOk(objs, sizes[..]) && marked <= objs && Shows(bitmap[..], marked, sizes[..])
    }

    /** Between collections every object's run is shown. */
    ghost predicate Normal()
      reads this, bitmap, shadow, sizes
    {
      Valid() && marked == objs
    }

    /** A new page, as `heap_morecore` makes it. */
    constructor (units: nat)
      ensures Normal() && objs == {} && this.units == units && freep == 0
      ensures fresh(bitmap) && fresh(shadow) && fresh(sizes)
    {
      this.units := units;
      bitmap := new bv32[units / 32 + 1](i => 0);
      shadow := new bv32[units / 32 + 1];
      sizes := new nat[units];
      freep := 0;
      objs, marked := {}, {};
      new;
      forall i: nat | i < 32 * bitmap.Length
        ensures !Bit(bitmap[..], i)
      {
        ZeroBit(i % 32);
      }
    }

    /** Where the next object of `n` units goes. */
    ghost function Place(n: nat): Option<nat>
      reads this, bitmap
    {
      if units <= 32 * bitmap.Length then FirstFree(bitmap[..], units, freep, n) else None
    }

    /** The search of `heap_alloc` in one page. */
    method Alloc(nunits: nat) returns (r: Option<nat>)
      requires Normal() && 0 < nunits <= units
      modifies this`freep, this`objs, this`marked, bitmap, sizes
      ensures Normal() && r == old(Place(nunits))
      ensures r.Some? ==>
        r.value + nunits <= units && r.value !in old(objs) && objs == old(objs) + {r.value}
        && sizes[r.value] == nunits
      ensures r.Some? ==> forall o :: o in old(objs) ==> sizes[o] == old(sizes[o])
      ensures r.None? ==> objs == old(objs) && sizes[..] == old(sizes[..])
    {
      hide Bit, Covered, FirstFree, Shows;
      ghost var bm, place := bitmap[..], Place(nunits);
      var index := freep;
      while index < units - nunits
        invariant Normal() && objs == old(objs) && sizes[..] == old(sizes[..]) && bitmap[..] == bm
        invariant freep == old(freep) <= index
        invariant forall o: nat :: freep <= o < index && o < units - nunits ==> Taken(bm, o, nunits)
      {
        var taken := IsMarkedAt(bitmap, index, nunits);
        if !taken {
          assert bitmap[..] == bm;
          assert forall i: nat :: index <= i < index + nunits ==> !Bit(bitmap[..], i);
          FirstIs(bm, units, freep, nunits, index);
          TakeRun(index, nunits);
          freep := index + nunits;
          return Some(index);
        }
        index := index + 1;
      }
      return None;
    }

    /** In a page without objects every smaller request succeeds at once. */
    lemma EmptyPage(nunits: nat)
      requires Normal() && objs == {} && freep == 0 && 0 < nunits < units
      ensures Place(nunits) == Some(0)
    {
      hide Bit;
      forall i: nat | i < nunits
        ensures !Bit(bitmap[..], i)
      {
        assert !Covered(objs, sizes[..], i);
      }
    }

    method TakeRun(index: nat, nunits: nat)
      requires Normal() && 0 < nunits && index + nunits <= units
      requires forall i: nat :: index <= i < index + nunits ==> !Bit(bitmap[..], i)
      modifies this`objs, this`marked, bitmap, sizes
      ensures Normal() && index !in old(objs) && objs == old(objs) + {index}
      ensures sizes[..] == old(sizes[..])[index := nunits]
    {
      hide Bit, Covered, Shows;
      ghost var bm, sz := bitmap[..], sizes[..];
      FreeRun(bm, objs, sz, index, nunits);
      ShowsResized(bm, objs, sz, index, nunits);
      MarkAt(bitmap, index, nunits);
      sizes[index] := nunits;
      assert sizes[..] == sz[index := nunits];
      ShowsMore(bm, bitmap[..], objs, sizes[..], index);
      objs, marked := objs + {index}, marked + {index};
    }

    /** `is_marked`. */
    method IsMarked(o: nat) returns (r: bool)
      requires Valid() && o in objs
      ensures r <==> o in marked
    {
      hide Bit, Covered, Shows;
      MarkedRun(bitmap[..], objs, marked, sizes[..], o);
      assert sizes[..][o] == sizes[o];
      r := IsMarkedAt(bitmap, o, sizes[o]);
      assert r ==> Taken(bitmap[..], o, sizes[o]);
      assert Taken(bitmap[..], o, sizes[o]) ==> r;
    }

    /** `mark`. */
    method Mark(o: nat)
      requires Valid() && o in objs
      modifies this`marked, bitmap
      ensures Valid() && marked == old(marked) + {o}
    {
      hide Bit, Covered, Shows;
      ghost var bm := bitmap[..];
      MarkAt(bitmap, o, sizes[o]);
      ShowsMore(bm, bitmap[..], marked, sizes[..], o);
      marked := marked + {o};
    }

    /** `gc_init` for one page: what is allocated becomes the shadow, nothing is marked. */
    method Init()
      requires Normal()
      modifies this`freep, this`marked, bitmap, shadow
      ensures Valid() && marked == {} && freep == 0 && Shows(shadow[..], objs, sizes[..])
    {
      hide Bit, Covered;
      ghost var bm := bitmap[..];
      for i := 0 to bitmap.Length
        invariant shadow[..i] == bm[..i] && bitmap[..] == bm
      {
        shadow[i] := bitmap[i];
      }
      assert shadow[..] == bm;
      for i := 0 to bitmap.Length
        invariant (forall k :: 0 <= k < i ==> bitmap[k] == 0) && shadow[..] == bm
      {
        bitmap[i] := 0;
      }
      marked := {};
      NothingShown(bitmap[..], sizes[..]);
      freep := 0;
    }

    /** `gc_sweep_page`: finalizes what was not reached and counts the units in use. */
    method SweepPage() returns (inuse: nat, finalized: seq<nat>)
      requires Valid() && Shows(shadow[..], objs, sizes[..])
      modifies this`objs, shadow
      ensures Normal() && objs == old(marked)
      ensures inuse == Counted(bitmap[..], bitmap.Length)
      ensures inuse == UnitsUsed(objs, sizes[..]) + 16 * HighBitsTo(bitmap[..],
        bitmap.Length) - 256 * CutsTo(bitmap[..], bitmap.Length)
      ensures Ascending(finalized) && forall o: nat :: o in finalized <==> o in old(objs) - old(marked)
    {
      hide Bit, Covered, Shows, PopCount32, Num;
      ghost var sh := shadow[..];
      inuse := 0;
      for i := 0 to bitmap.Length
        invariant forall k :: 0 <= k < i ==> shadow[k] == And(sh[k], Not(bitmap[k]))
        invariant forall k :: i <= k < bitmap.Length ==> shadow[k] == sh[k]
        invariant inuse == Counted(bitmap[..], i) && objs == old(objs)
      {
        shadow[i] := And(shadow[i], Not(bitmap[i]));
        inuse := inuse + Num(PopCount32(bitmap[i]));
      }
      ghost var dead := objs - marked;
      DeadShown(sh, bitmap[..], shadow[..], objs, marked, sizes[..]);
      SubsetRuns(objs, dead, sizes[..]);
      SubsetRuns(objs, marked, sizes[..]);
      finalized := FinalizeDead(dead);
      objs := marked;
      assert bitmap[..] == old(bitmap[..]);
      CountedUnits(bitmap[..], marked, sizes[..]);
    }

    /** The second loop of the sweep. */
    method FinalizeDead(ghost dead: set<nat>) returns (finalized: seq<nat>)
      requires bitmap.Length == shadow.Length && sizes.Length == units <= 32 * bitmap.Length
      requires RunsOk(dead, sizes[..]) && Shows(shadow[..], dead, sizes[..])
      ensures Ascending(finalized) && forall o: nat :: o in finalized <==> o in dead
    {
      hide Bit, TestBit, Covered;
      finalized := [];
      var index := 0;
      while index < units
        invariant 0 <= index <= units && Ascending(finalized)
        invariant forall o: nat :: o in finalized ==> o in dead && o < index
        invariant forall o: nat :: o in dead && o < index ==> o in finalized && o + sizes[o] <= index
      {
        TestBitIs(shadow[..], index);
        if TestBit(shadow[index / 32], index % 32) {
          StartsHere(shadow[..], dead, sizes[..], index);
          AscendingMore(finalized, index);
          finalized := finalized + [index];
          index := index + sizes[index];
        } else {
          NotHere(shadow[..], dead, sizes[..], index);
          index := index + 1;
        }
      }
    }
  }

  /** The sum that the sweeper adds up, in terms of the objects' sizes. */
  lemma CountedUnits(bm: seq<bv32>, objs: set<nat>, sizes: seq<nat>)
    requires RunsOk(objs, sizes) && Shows(bm, objs, sizes) && |sizes| <= 32 * |bm|
    ensures Counted(bm, |bm|) == UnitsUsed(objs, sizes) + 16 * HighBitsTo(bm, |bm|) - 256 * CutsTo(bm, |bm|)
  {
    hide *;
    BitsAreUnits(bm, objs, sizes);
    CountedIs(bm, |bm|);
    WordsCount(bm, |bm|);
    CountIsSize(bm, 32 * |bm|);
  }

  ghost predicate Ascending(s: seq<nat>) {
    forall i, j :: 0 <= i < j < |s| ==> s[i] < s[j]
  }

  lemma AscendingMore(s: seq<nat>, x: nat)
    requires Ascending(s) && forall o :: o in s ==> o < x
    ensures Ascending(s + [x])
  {
    var t := s + [x];
    forall i, j | 0 <= i < j < |t|
      ensures t[i] < t[j]
    {
      assert s[i] in s;
    }
  }

  /** `shadow[index / 32] & (1 << (index % 32))`. */
  function TestBit(w: bv32, j: nat): bool {
    And(w, Left(1, j)) != 0
  }

  lemma TestBitIs(bm: seq<bv32>, i: nat)
    requires i < 32 * |bm|
    ensures TestBit(bm[i / 32], i % 32) <==> Bit(bm, i)
  {
    hide BitAt, And, Left;
    var w, j := bm[i / 32], i % 32;
    var m := And(w, Left(1, j));
    SomeBit(m);
    forall k: nat | k < 32
      ensures BitAt(m, k) <==> k == j && BitAt(w, k)
    {
      AndBit(w, Left(1, j), k);
      LeftBit(1, j, k);
      if j <= k { OneBit(k - j); }
    }
  }

  lemma OneBit(k: nat)
    ensures BitAt(1, k) <==> k == 0
  {
    if k > 0 {
      OneMore(1, k - 1);
      HalfOne();
      ZeroBit(k - 1);
    }
  }

  lemma HalfOne()
    ensures (1 as bv32) >> 1 == 0
  {
  }

  lemma NothingShown(bm: seq<bv32>, sizes: seq<nat>)
    requires forall k :: 0 <= k < |bm| ==> bm[k] == 0
    ensures Shows(bm, {}, sizes)
  {
    forall i: nat | i < 32 * |bm|
      ensures !Bit(bm, i)
    {
      ZeroBit(i % 32);
    }
  }

  lemma SubsetRuns(objs: set<nat>, sub: set<nat>, sizes: seq<nat>)
    requires RunsOk(objs, sizes) && sub <= objs
    ensures RunsOk(sub, sizes)
  {
  }

  /** The shadow without the marks shows the objects that were not reached. */
  lemma DeadShown(sh: seq<bv32>, bm: seq<bv32>, sh1: seq<bv32>, objs: set<nat>, marked: set<nat>, sizes: seq<nat>)
    requires RunsOk(objs, sizes) && marked <= objs && |sh| == |bm| == |sh1|
    requires Shows(sh, objs, sizes) && Shows(bm, marked, sizes)
    requires forall k :: 0 <= k < |sh| ==> sh1[k] == And(sh[k], Not(bm[k]))
    ensures Shows(sh1, objs - marked, sizes)
  {
    forall i: nat | i < 32 * |sh1|
      ensures Bit(sh1, i) <==> Covered(objs - marked, sizes, i)
    {
      WithoutBit(sh, bm, sh1, i);
      CoveredDead(objs, marked, sizes, i);
    }
  }

  lemma WithoutBit(sh: seq<bv32>, bm: seq<bv32>, sh1: seq<bv32>, i: nat)
    requires |sh| == |bm| == |sh1| && i < 32 * |sh| && sh1[i / 32] == And(sh[i / 32], Not(bm[i / 32]))
    ensures Bit(sh1, i) <==> Bit(sh, i) && !Bit(bm, i)
  {
    hide BitAt, And, Not;
    AndBit(sh[i / 32], Not(bm[i / 32]), i % 32);
    NotBit(bm[i / 32], i % 32);
  }

  lemma CoveredDead(objs: set<nat>, marked: set<nat>, sizes: seq<nat>, i: nat)
    requires RunsOk(objs, sizes) && marked <= objs
    ensures Covered(objs - marked, sizes, i) <==> Covered(objs, sizes, i) && !Covered(marked, sizes, i)
  {
    if Covered(objs - marked, sizes, i) {
      var o :| o in objs - marked && InObject(o, sizes, i);
      assert o in objs;
      forall p | p in marked
        ensures !InObject(p, sizes, i)
      {
        if InObject(p, sizes, i) { OnlyOwner(objs, sizes, o, p, i); }
      }
    }
    if Covered(objs, sizes, i) && !Covered(marked, sizes, i) {
      var o :| o in objs && InObject(o, sizes, i);
      assert o in objs - marked;
    }
  }

  /** When all earlier dead objects are passed, a set bit is a header. */
  lemma StartsHere(sh: seq<bv32>, dead: set<nat>, sizes: seq<nat>, index: nat)
    requires RunsOk(dead, sizes) && Shows(sh, dead, sizes) && index < |sizes| <= 32 * |sh| && Bit(sh, index)
    requires forall o: nat :: o in dead && o < index ==> o + sizes[o] <= index
    ensures index in dead
    ensures forall o: nat :: o in dead && index < o ==> index + sizes[index] <= o
  {
    hide Bit;
    var o :| o in dead && InObject(o, sizes, index);
  }

  lemma NotHere(sh: seq<bv32>, dead: set<nat>, sizes: seq<nat>, index: nat)
    requires RunsOk(dead, sizes) && Shows(sh, dead, sizes) && index < |sizes| <= 32 * |sh| && !Bit(sh, index)
    ensures index !in dead
  {
    hide Bit;
    assert !Covered(dead, sizes, index);
    assert index in dead ==> InObject(index, sizes, index);
  }
}
