/** The collector: marking with weak tables, sweeping, and allocation over the pages. */
module Collector {
  import opened Util
  import opened ObjectGraph
  import Page
  import PopCount

  class Heap {
    var pages: seq<Page.HeapPage>
    var store: Store
    /** The chain of weak tables met by the marker: its head, and each table's predecessor. */
    var weaks: Option<Ref>
    var prev: map<Ref, Option<Ref>>
    /** The same chain, last met last. */
    ghost var chain: seq<Ref>
    /** The table of interned symbols; an entry may still lack its symbol. */
    var symbols: map<nat, Option<Ref>>

    ghost function Bitmaps(): set<object>
      reads this`pages
    {
      set i | 0 <= i < |pages| :: pages[i].bitmap as object
    }

    ghost function Shadows(): set<object>
      reads this`pages
    {
      set i | 0 <= i < |pages| :: pages[i].shadow as object
    }

    ghost function Others(): set<object>
      reads this`pages
    {
      Shadows() + (set i | 0 <= i < |pages| :: pages[i].sizes as object)
    }

    ghost predicate PagesOk()
      reads this`pages, this`store, pages, Bitmaps(), Others()
    {
      && (forall i :: 0 <= i < |pages| ==> PageOk(i))
      && AllApart(pages)
    }

    ghost predicate PageOk(i: nat)
      requires i < |pages|
      reads this`pages, this`store, pages, Bitmaps(), Others()
    {
      assert pages[i] in pages;
      assert pages[i].bitmap in Bitmaps() && pages[i].shadow in Others() && pages[i].sizes in Others();
      pages[i].Valid()
    }

    ghost predicate InPages(r: Ref)
      reads this`pages, this`store, pages
    {
      r.page < |pages| && r.unit in pages[r.page].objs
    }

    ghost predicate InStore()
      reads this`pages, this`store, pages
    {
      forall r: Ref :: r in store <==> InPages(r)
    }

    ghost predicate HasMark(r: Ref)
      reads this`pages, this`store, pages
    {
      r.page < |pages| && r.unit in pages[r.page].marked
    }

    ghost function Marked(): (m: set<Ref>)
      reads this`pages, this`store, pages
    {
      set r | r in store && HasMark(r)
    }

    ghost predicate Valid()
      reads this`pages, this`store, pages, Bitmaps(), Others()
    {
      PagesOk() && InStore() && NoDangling(store)
    }

    method IsMarked(r: Ref) returns (b: bool)
      requires Valid() && r in store
      ensures Valid() && Marked() == old(Marked()) && ChainOk() == old(ChainOk()) && (b <==> r in Marked())
    {
      assert PageOk(r.page) && InPages(r);
      b := pages[r.page].IsMarked(r.unit);
      forall i | 0 <= i < |pages|
        ensures PageOk(i)
      {
        assert old(PageOk(i));
      }
    }

    method Mark(r: Ref)
      requires Valid() && r in store
      modifies pages`marked, Bitmaps()
      ensures Valid() && Marked() == old(Marked()) + {r}
    {
      assert PageOk(r.page) && InPages(r);
      pages[r.page].Mark(r.unit);
      forall i | 0 <= i < |pages|
        ensures PageOk(i)
      {
        assert old(PageOk(i));
        if i != r.page { PagesApart(pages, i, r.page); }
      }
    }

    // ---------- marking ----------

    /** The chain is linked through `prev` and holds each marked weak table once. */
    ghost predicate ChainOk()
      reads this, pages
    {
      Chained(weaks, prev, chain, store, Marked())
    }

    /** `gc_mark_object`. */
    method MarkObject(o: Ref)
      requires Valid() && ChainOk() && o in store
      modifies this`weaks, this`prev, this`chain, pages`marked, Bitmaps()
      ensures Valid() && ChainOk() && old(chain) <= chain
      ensures MarkedFrom(store, old(Marked()), Marked(), o)
      decreases |store.Keys - Marked()|, 0
    {
      hide Valid, ChainOk, Marked, Holds, Inner, Tail, MarkedFrom, Pending, Working;
      ghost var m0 := Marked();
      var obj := o;
      PendingStart(store, m0, o);
      while true
        invariant Valid() && ChainOk() && old(chain) <= chain && obj in store
        invariant |store.Keys - Marked()| <= |store.Keys - m0| && Pending(store, m0, Marked(), o, obj)
        decreases |store.Keys - Marked()|
      {
        ghost var m := Marked();
        var seen := Visit(obj);
        if seen {
          assert Marked() == m;
          PendingDone(store, m0, m, o, obj);
          return;
        }
        WorkStart(store, m0, m, o, obj);
        Fewer(store.Keys, m, Marked(), obj);
        MarkInner(obj, m0, o);
        match Tail(store[obj])
        case None =>
          WorkDone(store, m0, Marked(), o, obj);
          return;
        case Some(next) =>
          ValidParts();
          TailChild(store, obj, next);
          WorkNext(store, m0, Marked(), o, obj, next);
          obj := next;
      }
    }

    lemma ValidParts()
      requires Valid()
      ensures NoDangling(store)
    {
    }

    /** The inner children, one after the other. */
    method MarkInner(obj: Ref, ghost m0: set<Ref>, ghost o: Ref)
      requires Valid() && ChainOk() && obj in store && Working(store, m0, Marked(), o, obj, 0)
      modifies this`weaks, this`prev, this`chain, pages`marked, Bitmaps()
      ensures Valid() && ChainOk() && old(chain) <= chain
      ensures Working(store, m0, Marked(), o, obj, |Inner(store[obj])|)
      ensures |store.Keys - Marked()| <= old(|store.Keys - Marked()|)
      decreases |store.Keys - Marked()|, 1
    {
      hide Valid, ChainOk, Marked, Holds, Inner, Tail, MarkedFrom, Pending, Working;
      var inner := Inner(store[obj]);
      ghost var n := |store.Keys - Marked()|;
      for k := 0 to |inner|
        invariant Valid() && ChainOk() && old(chain) <= chain && |store.Keys - Marked()| <= n
        invariant Working(store, m0, Marked(), o, obj, k)
      {
        ValidParts();
        Child(store, obj, inner[k]);
        ghost var m1 := Marked();
        MarkObject(inner[k]);
        Grown(store, m1, Marked(), inner[k]);
        SmallerSet(store.Keys - Marked(), store.Keys - m1);
        WorkStep(store, m0, m1, Marked(), o, obj, k);
      }
    }

    method PushChain(w: Ref)
      requires Valid()
      modifies this`weaks, this`prev, this`chain
      ensures Valid() && weaks == Some(w) && prev == old(prev)[w := old(weaks)] && chain == old(chain) + [w]
      ensures Marked() == old(Marked())
    {
      prev := prev[w := weaks];
      weaks := Some(w);
      chain := chain + [w];
      forall i | 0 <= i < |pages|
        ensures PageOk(i)
      {
        assert old(PageOk(i));
      }
    }

    /** Marks an object not marked before, and chains it if it is a weak table. */
    method Visit(obj: Ref) returns (seen: bool)
      requires Valid() && ChainOk() && obj in store
      modifies this`weaks, this`prev, this`chain, pages`marked, Bitmaps()
      ensures Valid() && ChainOk() && old(chain) <= chain
      ensures (seen <==> obj in old(Marked())) && Marked() == old(Marked()) + {obj}
    {
      hide Valid, Marked, Chained;
      ghost var m := Marked();
      seen := IsMarked(obj);
      if seen {
        assert m + {obj} == m;
        return;
      }
      Mark(obj);
      if store[obj].Weak? {
        ChainedMore(weaks, prev, chain, store, m, obj);
        PushChain(obj);
      } else {
        ChainedStill(weaks, prev, chain, store, m, obj);
      }
    }

    /** `gc_mark` on every root: the stack, the call infos' contexts, the arena, the globals and
        the other fields of the state, in this order. */
    method MarkRoots(roots: seq<Val>)
      requires Valid() && ChainOk() && Marked() == {} && forall r :: r in RefsOf(roots) ==> r in store
      modifies this`weaks, this`prev, this`chain, pages`marked, Bitmaps()
      ensures Valid() && ChainOk() && RefsOf(roots) <= Marked() && Reaching(store, RefsOf(roots), Marked())
    {
      hide Valid, ChainOk, Marked, Reaching, MarkedFrom;
      ghost var rs := RefsOf(roots);
      ReachNone(store, rs);
      for k := 0 to |roots|
        invariant Valid() && ChainOk() && Reaching(store, rs, Marked())
        invariant forall i :: 0 <= i < k && roots[i].Obj? ==> roots[i].r in Marked()
      {
        if roots[k].Obj? {
          assert roots[k].r in rs;
          ghost var m := Marked();
          MarkObject(roots[k].r);
          ReachStep(store, rs, m, Marked(), roots[k].r);
          NowMarked(store, m, Marked(), roots[k].r);
        }
      }
    }

    /** The entries of one weak table; `j` counts the values that were marked. */
    method ScanTable(w: Ref, j0: nat, ghost roots: set<Ref>) returns (j: nat)
      requires Valid() && ChainOk() && Reaching(store, roots, Marked()) && w in store && w in Marked() && store[w].Weak?
      modifies this`weaks, this`prev, this`chain, pages`marked, Bitmaps()
      ensures Valid() && ChainOk() && Reaching(store, roots, Marked()) && old(chain) <= chain
        && old(Marked()) <= Marked() && j >= j0
      ensures j == j0 ==> Marked() == old(Marked()) && chain == old(chain) && TableClosed(store[w], Marked())
      ensures j > j0 ==> |store.Keys - Marked()| < old(|store.Keys - Marked()|)
    {
      hide Valid, ChainOk, Marked, Reaching, MarkedFrom, EntryClosed, NoDangling;
      j := j0;
      ghost var m0, keys := Marked(), store.Keys;
      var es := store[w].weak;
      for it := 0 to |es|
        invariant Valid() && ChainOk() && Reaching(store, roots, Marked()) && old(chain) <= chain
          && m0 <= Marked() && j >= j0
        invariant j == j0 ==>
          Marked() == m0 && chain == old(chain)
          && forall i :: 0 <= i < it ==> EntryClosed(es[i], m0)
        invariant j > j0 ==> |keys - Marked()| < |keys - m0|
      {
        ghost var m := Marked();
        EntryInStore(w, es[it]);
        var key, val := es[it].0, es[it].1;
        var alive := IsMarked(key);
        if alive && val.Obj? {
          var seen := IsMarked(val.r);
            if !seen {
            EntryLive(store, roots, m, w, es[it]);
            MarkObject(val.r);
            ReachStep(store, roots, m, Marked(), val.r);
            NowMarked(store, m, Marked(), val.r);
            FewerThan(keys, m0, m, Marked(), val.r);
            j := j + 1;
          }
        }
        EntryIs(es[it], m0);
      }
    }

    lemma EntryInStore(w: Ref, e: (Ref, Val))
      requires Valid() && w in store && store[w].Weak? && e in store[w].weak
      ensures e.0 in store && (e.1.Obj? ==> e.1.r in store)
    {
    }

    /** One pass along the chain, from its head; tables met during the pass are not scanned in it. */
    method ScanWeaks(ghost roots: set<Ref>) returns (j: nat)
      requires Valid() && ChainOk() && Reaching(store, roots, Marked())
      modifies this`weaks, this`prev, this`chain, pages`marked, Bitmaps()
      ensures Valid() && ChainOk() && Reaching(store, roots, Marked()) && old(Marked()) <= Marked()
      ensures j == 0 ==>
        Marked() == old(Marked())
        && forall w :: w in Marked() && w in store ==> TableClosed(store[w], Marked())
      ensures j > 0 ==> |store.Keys - Marked()| < old(|store.Keys - Marked()|)
    {
      hide Valid, Marked, Reaching, TableClosed, ChainOk, Scanned;
      j := 0;
      var cur := weaks;
      ghost var m0, keys, chain0 := Marked(), store.Keys, chain;
      ghost var idx := |chain|;
      OnChain(chain0, idx);
      NoneScanned(chain0, store, m0);
      while cur != None
        invariant Valid() && ChainOk() && Reaching(store, roots, Marked()) && m0 <= Marked()
        invariant chain0 <= chain && 0 <= idx <= |chain0| && cur == if idx == 0 then None else Some(chain0[idx - 1])
        invariant j == 0 ==> Marked() == m0 && chain == chain0 && Scanned(chain0, idx, store, m0)
        invariant j > 0 ==> |keys - Marked()| < |keys - m0|
        decreases idx
      {
        var w := cur.value;
        OnChain(chain0, idx);
        ghost var m, j0 := Marked(), j;
        j := ScanTable(w, j, roots);
        SmallerSet(keys - Marked(), keys - m);
        OnChain(chain0, idx);
        cur := prev[w];
        idx := idx - 1;
        if j == 0 { OneScanned(chain0, idx, store, m0); }
      }
      if j == 0 {
        AllTables();
      }
    }

    /** Where the chain leads from its `idx`-th table. */
    lemma OnChain(chain0: seq<Ref>, idx: nat)
      requires ChainOk() && chain0 <= chain && idx <= |chain0|
      ensures weaks == if chain == [] then None else Some(chain[|chain| - 1])
      ensures idx > 0 ==>
        var w := chain0[idx - 1];
        w in Marked() && w in store && store[w].Weak? && w in prev && prev[w] == if idx == 1 then None
          else Some(chain0[idx - 2])
    {
      if idx > 0 {
        assert chain[idx - 1] in chain;
        PrevLink(weaks, prev, chain, idx - 1);
      }
    }

    lemma AllTables()
      requires ChainOk() && Scanned(chain, 0, store, Marked())
      ensures forall w :: w in Marked() && w in store ==> TableClosed(store[w], Marked())
    {
      hide Marked, TableClosed, Linked;
      forall w | w in Marked() && w in store
        ensures TableClosed(store[w], Marked())
      {
        if store[w].Weak? {
          assert w in chain;
        } else {
          NotTable(store[w], Marked());
        }
      }
    }

    /** `gc_mark_phase`. */
    method MarkPhase(roots: seq<Val>)
      requires Valid() && ChainOk() && Marked() == {} && forall r :: r in RefsOf(roots) ==> r in store
      modifies this`weaks, this`prev, this`chain, pages`marked, Bitmaps()
      ensures Valid() && ChainOk() && IsLive(store, RefsOf(roots), Marked())
    {
      hide Valid, ChainOk, Marked, Reaching, TableClosed, IsLive;
      ghost var rs := RefsOf(roots);
      MarkRoots(roots);
      var j := ScanWeaks(rs);
      while j > 0
        invariant Valid() && ChainOk() && Reaching(store, rs, Marked()) && rs <= Marked()
        invariant j == 0 ==> forall w :: w in Marked() && w in store ==> TableClosed(store[w], Marked())
        decreases |store.Keys - Marked()|, j
      {
        j := ScanWeaks(rs);
      }
      ReachLive(store, rs, Marked());
    }

    // ---------- sweeping ----------

    /** Between collections: every allocated run is shown, no chain. */
    ghost predicate Normal()
      reads this, pages, Bitmaps(), Others()
    {
      Valid() && weaks == None && chain == [] && forall i :: 0 <= i < |pages| ==> pages[i].marked == pages[i].objs
    }

    /** The shadow of page `i` shows what was allocated when the collection began. */
    ghost predicate ShadowOk(i: nat)
      requires i < |pages|
      reads this`pages, pages`objs, Others()
    {
      assert pages[i] in pages;
      assert pages[i].shadow in Others() && pages[i].sizes in Others();
      Page.Shows(pages[i].shadow[..], pages[i].objs, pages[i].sizes[..])
    }

    method InitPage(k: nat, p: Page.HeapPage)
      requires PagesOk() && k < |pages| && p == pages[k] && p.marked == p.objs
      modifies p`freep, p`marked, p.bitmap, p.shadow
      ensures PagesOk() && pages[k].marked == {} && ShadowOk(k)
      ensures forall i :: 0 <= i < |pages| && i != k ==>
        ShadowOk(i) == old(ShadowOk(i))
        && pages[i].marked == old(pages[i].marked)
    {
      assert PageOk(k);
      p.Init();
      forall i | 0 <= i < |pages| && i != k
        ensures PageOk(i) && ShadowOk(i) == old(ShadowOk(i)) && pages[i].marked == old(pages[i].marked)
      {
        assert old(PageOk(i));
        PagesApart(pages, i, k);
      }
      assert pages[k].Valid() && PageOk(k);
    }

    /** `gc_init`. */
    method InitPages()
      requires Normal()
      modifies pages`freep, pages`marked, Bitmaps(), Shadows()
      ensures Valid() && ChainOk() && Marked() == {} && forall i :: 0 <= i < |pages| ==> ShadowOk(i)
    {
      hide Normal, ShadowOk, PagesOk, NoDangling, Valid, ChainOk, Marked;
      OpenPages();
      for k := 0 to |pages|
        invariant PagesOk()
        invariant forall i :: 0 <= i < k ==> pages[i].marked == {} && ShadowOk(i)
        invariant forall i :: k <= i < |pages| ==> pages[i].marked == pages[i].objs
      {
        PagesDiffer(pages, k);
        InitPage(k, pages[k]);
      }
      AllClear();
    }

    lemma OpenPages()
      requires Normal()
      ensures PagesOk() && InStore() && NoDangling(store) && weaks == None && chain == []
      ensures forall i :: 0 <= i < |pages| ==> pages[i].marked == pages[i].objs
    {
    }

    lemma AllClear()
      requires PagesOk() && InStore() && NoDangling(store) && weaks == None && chain == []
      requires forall i :: 0 <= i < |pages| ==> pages[i].marked == {}
      ensures Valid() && ChainOk() && Marked() == {}
    {
      hide PagesOk, NoDangling, Linked;
      assert forall r :: r in store ==> !HasMark(r);
      NoChain(prev);
    }

    /** The loop of `kh_del` over one weak table: entries with a dead key go. */
    method FilterTable(es: seq<(Ref, Val)>) returns (kept: seq<(Ref, Val)>)
      requires Valid() && forall e :: e in es ==> e.0 in store
      ensures Valid() && Marked() == old(Marked()) && kept == Keep(es, Marked())
    {
      hide Valid, Marked;
      ghost var m := Marked();
      kept := [];
      for it := 0 to |es|
        invariant Valid() && Marked() == m && kept == Keep(es[..it], m)
      {
        KeepMore(es, it, m);
        var alive := IsMarked(es[it].0);
        if alive {
          kept := kept + [es[it]];
        }
      }
      assert es[..|es|] == es;
    }

    method SetTable(w: Ref, kept: seq<(Ref, Val)>, ghost m: set<Ref>)
      requires Valid() && w in store && store[w].Weak? && Marked() == m && kept == Keep(store[w].weak, m)
      modifies this`store
      ensures Valid() && Marked() == m && store == old(store)[w := Weak(kept)]
    {
      hide NoDangling, Keep;
      PruneOne(store, w, m);
      store := store[w := Weak(kept)];
      forall i | 0 <= i < |pages|
        ensures PageOk(i)
      {
        assert old(PageOk(i));
      }
    }

    method SetChain(head: Option<Ref>, ghost links: seq<Ref>)
      requires Valid()
      modifies this`weaks, this`chain
      ensures Valid() && Marked() == old(Marked()) && weaks == head && chain == links
    {
      weaks := head;
      chain := links;
      forall i | 0 <= i < |pages|
        ensures PageOk(i)
      {
        assert old(PageOk(i));
      }
    }

    /** The first loop of `gc_sweep_phase`: every table of the chain, which is emptied. */
    method SweepWeaks()
      requires Valid() && ChainOk()
      modifies this`store, this`weaks, this`chain
      ensures Valid() && weaks == None && chain == [] && Marked() == old(Marked())
      ensures store.Keys == old(store).Keys
      ensures forall r :: r in store && r in Marked() ==> store[r] == Pruned(old(store)[r], Marked())
    {
      hide Valid, Marked, Keep, Pruned, Linked, PrunedFrom;
      ghost var m, st0, chain0 := Marked(), store, chain;
      ghost var idx := |chain|;
      NonePruned(st0, chain0);
      NoTwice(weaks, prev, chain);
      while weaks != None
        invariant Valid() && Marked() == m && store.Keys == st0.Keys && 0 <= idx <= |chain0|
        invariant weaks == if idx == 0 then None else Some(chain0[idx - 1])
        invariant PrunedFrom(st0, store, chain0, idx, m)
        decreases idx
      {
        var w := weaks.value;
        TableHere(prev, chain0, idx, st0, store, m, w);
        TableEntries(w);
        var kept := FilterTable(store[w].weak);
        PrunedOne(st0, store, chain0, idx, m, kept);
        SetTable(w, kept, m);
        SetChain(prev[w], chain);
        idx := idx - 1;
      }
      SetChain(None, []);
      AllPruned(st0, store, chain0, m);
    }

    lemma TableEntries(w: Ref)
      requires Valid() && w in store && store[w].Weak?
      ensures forall e :: e in store[w].weak ==> e.0 in store
    {
    }

    method SweepOne(k: nat, p: Page.HeapPage) returns (inuse: nat, dead: seq<nat>)
      requires PagesOk() && k < |pages| && p == pages[k] && ShadowOk(k)
      modifies p`objs, p.shadow
      ensures PagesOk() && p.objs == old(p.marked) && p.marked == old(p.marked)
      ensures forall i :: 0 <= i < |pages| && i != k ==>
        ShadowOk(i) == old(ShadowOk(i))
        && pages[i].objs == old(pages[i].objs) && pages[i].marked == old(pages[i].marked)
      ensures inuse == Page.UnitsUsed(p.marked, p.sizes[..]) + PopCount.Excess(p.bitmap[..])
      ensures forall i :: 0 <= i < |pages| ==>
        pages[i].bitmap[..] == old(pages[i].bitmap[..])
        && pages[i].sizes[..] == old(pages[i].sizes[..])
      ensures Page.Ascending(dead) && forall o: nat :: o in dead <==> o in old(p.objs) - p.marked
    {
      hide PopCount.Excess, Page.UnitsUsed;
      assert PageOk(k);
      inuse, dead := p.SweepPage();
      PopCount.ExcessIs(p.bitmap[..]);
      forall i | 0 <= i < |pages| && i != k
        ensures PageOk(i) && ShadowOk(i) == old(ShadowOk(i)) && pages[i].objs == old(pages[i].objs)
          && pages[i].marked == old(pages[i].marked)
      {
        assert old(PageOk(i));
        PagesApart(pages, i, k);
      }
      assert pages[k].Valid() && PageOk(k);
    }

    /** The loop over the pages: the dead are finalized page by page, in the order of their units. */
    method SweepPages() returns (total: nat, inuse: int, finalized: seq<Ref>)
      requires PagesOk() && InStore() && forall i :: 0 <= i < |pages| ==> ShadowOk(i)
      modifies pages`objs, Shadows()
      ensures PagesOk() && forall i :: 0 <= i < |pages| ==> pages[i].objs == pages[i].marked == old(pages[i].marked)
      ensures NoRepeats(finalized) && forall r: Ref :: r in finalized <==> old(r in store && !HasMark(r))
      ensures total == Capacity(pages) && inuse == InUse(pages) + Excess(pages)
    {
      hide ShadowOk, PagesOk, Page.Ascending, Page.UnitsUsed, PopCount.Excess, Capacity, Sum;
      total, inuse, finalized := 0, 0, [];
      ghost var us, xs := Tally(pages);
      OpenApart();
      NoPages();
      for k := 0 to |pages|
        invariant PagesOk() && forall i :: k <= i < |pages| ==> ShadowOk(i) && pages[i].objs == old(pages[i].objs)
        invariant forall i :: 0 <= i < |pages| ==> pages[i].marked == old(pages[i].marked)
        invariant forall i :: 0 <= i < k ==> pages[i].objs == pages[i].marked
        invariant NoRepeats(finalized) && forall r: Ref :: r in finalized <==>
          r.page < k
          && old(r in store && !HasMark(r))
        invariant total == Capacity(pages[..k]) && inuse == Sum(us[..k]) + Sum(xs[..k])
        invariant forall i :: 0 <= i < |pages| ==> Tallied(pages[i], us[i], xs[i])
      {
        PagesDiffer(pages, k);
        assert Tallied(pages[k], us[k], xs[k]);
        var used, dead := SweepOne(k, pages[k]);
        MorePages(pages, k, us, xs);
        inuse := inuse + used;
        total := total + pages[k].units;
        OnePage(finalized, k, dead);
        finalized := finalized + RefsIn(k, dead);
      }
      assert pages[..|pages|] == pages && us[..|pages|] == us && xs[..|pages|] == xs;
      SumsAre(pages, us, xs);
    }

    lemma OpenApart()
      requires PagesOk()
      ensures AllApart(pages)
    {
    }

    /** Marking does not touch the shadows. */
    method MarkLive(roots: seq<Val>)
      requires Valid() && ChainOk() && Marked() == {} && forall r :: r in RefsOf(roots) ==> r in store
      requires forall i :: 0 <= i < |pages| ==> ShadowOk(i)
      modifies this`weaks, this`prev, this`chain, pages`marked, Bitmaps()
      ensures Valid() && ChainOk() && IsLive(store, RefsOf(roots), Marked())
      ensures forall i :: 0 <= i < |pages| ==> ShadowOk(i)
    {
      hide IsLive, Chained, NoDangling;
      ghost var bms := Bitmaps();
      OpenValid();
      forall i | 0 <= i < |pages|
        ensures NotBitmap(pages[i], bms)
      {
        assert PageOk(i);
        ShadowApart(pages, i);
      }
      MarkPhase(roots);
      forall i | 0 <= i < |pages|
        ensures ShadowOk(i)
      {
        assert old(ShadowOk(i)) && NotBitmap(pages[i], bms);
      }
    }

    lemma OpenValid()
      requires Valid()
      ensures PagesOk() && AllApart(pages) && InStore()
      ensures forall i :: 0 <= i < |pages| ==> pages[i].Valid()
    {
      forall i | 0 <= i < |pages|
        ensures pages[i].Valid()
      {
        assert PageOk(i);
      }
    }

    /** A whole collection. */
    method Collect(roots: seq<Val>, pageUnits: nat) returns (finalized: seq<Ref>)
      requires Normal() && SymbolsIn() && forall r :: r in RefsOf(roots) ==> r in store
      modifies this`store, this`symbols, this`weaks, this`prev, this`chain, this`pages, pages, Bitmaps(), Shadows()
      ensures Normal() && old(pages) <= pages
      ensures |pages| == |old(pages)|
        + if 77 * Capacity(old(pages)) < 100 * (InUse(old(pages)) + Excess(old(pages)) + 1) then 1 else 0
      ensures forall p :: p in pages[|old(pages)|..] ==> p.units == pageUnits && p.objs == {}
      ensures IsLive(old(store), RefsOf(roots), store.Keys) && store == Survivors(old(store), store.Keys)
      ensures SymbolsIn() && forall s :: s in old(symbols) ==>
        (s in symbols <==> old(symbols)[s].Some? ==> old(symbols)[s].value in store)
      ensures forall s :: s in symbols ==> s in old(symbols) && symbols[s] == old(symbols)[s]
      ensures NoRepeats(finalized) && forall r: Ref :: r in finalized <==> r in old(store) && r !in store
    {
      hide IsLive, ChainOk, Normal, Valid, ShadowOk, Marked, Survivors, InUse, Excess, Capacity, Threshold;
      NormalValid();
      InitPages();
      MarkLive(roots);
      finalized := Sweep(RefsOf(roots), pageUnits);
      ThresholdIs(Capacity(old(pages)), InUse(old(pages)) + Excess(old(pages)));
    }

    lemma NormalValid()
      requires Normal()
      ensures Valid()
    {
    }

    /** The symbols of the table are objects of the store. */
    ghost predicate SymbolsIn()
      reads this`symbols, this`store
    {
      forall s :: s in symbols && symbols[s].Some? ==> symbols[s].value in store
    }

    method SetSymbols(table: map<nat, Option<Ref>>)
      requires Valid()
      modifies this`symbols
      ensures Valid() && Marked() == old(Marked()) && symbols == table
    {
      symbols := table;
      forall i | 0 <= i < |pages|
        ensures PageOk(i)
      {
        assert old(PageOk(i));
      }
    }

    /** The symbol table in the sweep: the entries whose symbols were not reached go. */
    method SweepSymbols()
      requires Valid() && SymbolsIn()
      modifies this`symbols
      ensures Valid() && symbols == Interned(old(symbols), {}, Marked())
    {
      hide Valid, Marked, ChainOk;
      ghost var table, m := symbols, Marked();
      var todo := symbols.Keys;
      while todo != {}
        invariant Valid()
        invariant Marked() == m
        invariant todo <= symbols.Keys
        invariant symbols == Interned(table, todo, m)
        decreases |todo|
      {
        var s :| s in todo;
        if symbols[s].Some? {
          var marked := IsMarked(symbols[s].value);
          if !marked {
            SetSymbols(symbols - {s});
          }
        }
        todo := todo - {s};
      }
    }

    /** `gc_sweep_phase`: tables, symbols, pages; what is finalized leaves the store; one more page when the count
        of units in use reaches 77 percent. */
    method Sweep(ghost roots: set<Ref>, pageUnits: nat) returns (finalized: seq<Ref>)
      requires SymbolsIn() && Valid() && ChainOk() && IsLive(store, roots, Marked())
        && forall i :: 0 <= i < |pages| ==> ShadowOk(i)
      modifies this`store, this`symbols, this`weaks, this`chain, this`pages, pages`objs, Shadows()
      ensures Normal() && store.Keys == old(Marked()) && store == Survivors(old(store), store.Keys)
      ensures symbols == Interned(old(symbols), {}, store.Keys)
      ensures NoRepeats(finalized) && forall r: Ref :: r in finalized <==> r in old(store) && r !in store
      ensures old(pages) <= pages
      ensures |pages| == |old(pages)|
        + if Threshold(Capacity(old(pages))) <= InUse(old(pages)) + Excess(old(pages)) then 1 else 0
      ensures forall p :: p in pages[|old(pages)|..] ==> p.units == pageUnits && p.objs == {}
    {
      hide Normal, Interned, Valid, ChainOk, IsLive, Marked, Survivors, NoRepeats, ShadowOk, InUse, Excess, Capacity,
        Threshold;
      var total, inuse;
      total, inuse, finalized := SweepAll(roots);
      ghost var ps := pages;
      label Counted:
      if Threshold(total) <= inuse {
        MoreCore(pageUnits);
        forall o | o in SizesOf(ps) + BitmapsOf(ps) ensures old@Counted(allocated(o)) {}
        assert InUse(ps) == old@Counted(InUse(ps)) && Excess(ps) == old@Counted(Excess(ps));
      }
    }

    /** The tables and the symbols. */
    method SweepTables()
      requires SymbolsIn() && Valid() && ChainOk() && forall i :: 0 <= i < |pages| ==> ShadowOk(i)
      modifies this`store, this`symbols, this`weaks, this`chain
      ensures Valid() && weaks == None && chain == [] && Marked() == old(Marked())
      ensures store.Keys == old(store).Keys && symbols == Interned(old(symbols), {}, Marked())
      ensures forall r :: r in store && r in Marked() ==> store[r] == Pruned(old(store)[r], Marked())
      ensures forall i :: 0 <= i < |pages| ==> ShadowOk(i)
    {
      hide Valid, Marked, Pruned, ChainOk, Page.Shows, Interned;
      SweepWeaks();
      SweepSymbols();
      forall i | 0 <= i < |pages|
        ensures ShadowOk(i)
      {
        assert old(ShadowOk(i));
      }
    }

    /** The objects that were not reached are finalized and leave the store. */
    method SweepObjects(ghost st0: Store) returns (total: nat, inuse: int, finalized: seq<Ref>)
      requires Valid() && weaks == None && chain == [] && forall i :: 0 <= i < |pages| ==> ShadowOk(i)
      requires store.Keys == st0.Keys && NoDangling(Survivors(st0, Marked()))
      requires forall r :: r in store && r in Marked() ==> store[r] == Pruned(st0[r], Marked())
      modifies this`store, pages`objs, Shadows()
      ensures Normal() && store.Keys == old(Marked()) && store == Survivors(st0, store.Keys)
      ensures NoRepeats(finalized) && forall r: Ref :: r in finalized <==> r in st0 && r !in store
      ensures total == Capacity(pages) && inuse == InUse(pages) + Excess(pages)
    {
      hide NoRepeats, Linked, Page.Shows, InUse, Excess, Capacity;
      ghost var live, st1 := Marked(), store;
      OpenValid();
      MarksAre();
      total, inuse, finalized := SweepPages();
      forall r: Ref
        ensures r in live <==> InPages(r)
      {
        assert r in live <==> old(HasMark(r));
      }
      assert forall r: Ref :: r in finalized <==> r in st0 && r !in live;
      Released(st0, st1, live, finalized);
      ghost var ps := pages;
      label Counted:
      Release(finalized, live);
      forall o | o in SizesOf(ps) + BitmapsOf(ps) ensures old@Counted(allocated(o)) {}
      assert InUse(ps) == old@Counted(InUse(ps)) && Excess(ps) == old@Counted(Excess(ps));
    }

    /** The sweep itself. */
    method SweepAll(ghost roots: set<Ref>) returns (total: nat, inuse: int, finalized: seq<Ref>)
      requires SymbolsIn() && Valid() && ChainOk() && IsLive(store, roots, Marked())
        && forall i :: 0 <= i < |pages| ==> ShadowOk(i)
      modifies this`store, this`symbols, this`weaks, this`chain, pages`objs, Shadows()
      ensures Normal() && store.Keys == old(Marked()) && store == Survivors(old(store), store.Keys)
      ensures symbols == Interned(old(symbols), {}, store.Keys)
      ensures NoRepeats(finalized) && forall r: Ref :: r in finalized <==> r in old(store) && r !in store
      ensures total == Capacity(pages) && inuse == InUse(pages) + Excess(pages)
    {
      hide Valid, SymbolsIn, Interned, ChainOk, IsLive, NoDangling, Survivors, Normal, Marked, ShadowOk, NoRepeats,
        InUse, Excess, Capacity;
      ghost var st0 := store;
      OpenStore();
      SurvivorsOk(st0, roots, Marked());
      SweepTables();
      total, inuse, finalized := SweepObjects(st0);
    }

    lemma OpenStore()
      requires Valid()
      ensures NoDangling(store)
    {
    }

    lemma MarksAre()
      requires Valid()
      ensures forall r: Ref :: HasMark(r) <==> r in Marked()
    {
      OpenValid();
      forall r: Ref | HasMark(r)
        ensures r in Marked()
      {
        assert pages[r.page].Valid() && InPages(r);
      }
    }

    /** What was finalized leaves the store; pages and store agree again. */
    method Release(finalized: seq<Ref>, ghost live: set<Ref>)
      requires PagesOk() && weaks == None && chain == [] && NoDangling(store - (set r | r in finalized))
      requires (store - (set r | r in finalized)).Keys == live
      requires forall i :: 0 <= i < |pages| ==> pages[i].objs == pages[i].marked
      requires forall r: Ref :: r in live <==> InPages(r)
      modifies this`store
      ensures Normal() && store == old(store) - (set r | r in finalized)
    {
      store := store - (set r | r in finalized);
      forall i | 0 <= i < |pages|
        ensures PageOk(i)
      {
        assert old(PageOk(i));
      }
    }

    // ---------- allocation ----------

    ghost predicate Fits(nunits: nat)
      reads this`pages
    {
      0 < nunits && forall i :: 0 <= i < |pages| ==> nunits <= pages[i].units
    }

    /** A new object may refer to objects of the store only. */
    ghost predicate RefersInto(o: Object, keys: set<Ref>) {
      (forall c :: Holds(o, c) ==> c in keys) && (o.Weak? ==> o.weak == [])
    }

    /** The units an object occupies, header included. */
    ghost function SizeOf(r: Ref): nat
      reads this`pages, pages, Others()
    {
      if r.page < |pages| && r.unit < pages[r.page].sizes.Length then
        assert pages[r.page].sizes in Others();
        pages[r.page].sizes[r.unit]
      else 0
    }

    method AllocIn(k: nat, p: Page.HeapPage, nunits: nat) returns (u: Option<nat>)
      requires Normal() && k < |pages| && p == pages[k] && 0 < nunits <= p.units
      modifies p`freep, p`objs, p`marked, p.bitmap, p.sizes
      ensures PagesOk() && p.marked == p.objs
      ensures forall i :: 0 <= i < |pages| && i != k ==> pages[i].objs == pages[i].marked == old(pages[i].objs)
      ensures u == old(p.Place(nunits)) && (u.None? ==> p.objs == old(p.objs))
      ensures u.Some? ==>
        u.value !in old(p.objs) && p.objs == old(p.objs) + {u.value}
        && SizeOf(Ref(k, u.value)) == nunits
      ensures forall r: Ref :: old(InPages(r)) ==> SizeOf(r) == old(SizeOf(r))
      ensures forall i :: 0 <= i < |pages| && i != k ==> pages[i].Place(nunits) == old(pages[i].Place(nunits))
    {
      hide Page.RunsOk, Page.Shows, NoDangling, Page.FirstFree;
      OpenValid();
      u := p.Alloc(nunits);
      forall i | 0 <= i < |pages|
        ensures PageOk(i)
        ensures i != k ==>
          pages[i].objs == pages[i].marked == old(pages[i].objs)
          && pages[i].sizes[..] == old(pages[i].sizes[..])
        ensures i != k ==> pages[i].freep == old(pages[i].freep) && pages[i].bitmap[..] == old(pages[i].bitmap[..])
      {
        assert old(PageOk(i));
        if i != k { PagesApart(pages, i, k); }
      }
      forall r: Ref | old(InPages(r))
        ensures SizeOf(r) == old(SizeOf(r))
      {
        assert r.page != k ==> pages[r.page].sizes[..] == old(pages[r.page].sizes[..]);
      }
    }

    /** The object takes its place in the store. */
    method PutObject(r: Ref, o: Object, ghost st: Store)
      requires PagesOk() && r !in store && NoDangling(store) && RefersInto(o, store.Keys) && weaks == None
        && chain == []
      requires forall q: Ref :: q == r || q in store <==> InPages(q)
      requires forall i :: 0 <= i < |pages| ==> pages[i].marked == pages[i].objs
      modifies this`store
      ensures Normal() && store == old(store)[r := o] && forall q :: SizeOf(q) == old(SizeOf(q))
    {
      hide Holds;
      NewObject(store, r, o);
      store := store[r := o];
      forall i | 0 <= i < |pages|
        ensures PageOk(i)
      {
        assert old(PageOk(i));
      }
    }

    /** The search of `heap_alloc`: the newest page first, the first free run in it. */
    method FindPlace(nunits: nat) returns (r: Option<Ref>)
      requires Normal() && Fits(nunits)
      modifies pages`freep, pages`objs, pages`marked, Bitmaps(), Others()
      ensures PagesOk() && forall i :: 0 <= i < |pages| ==> pages[i].marked == pages[i].objs
      ensures r.None? ==> InStore()
      ensures r.Some? ==>
        r.value !in store && SizeOf(r.value) == nunits
        && forall q: Ref :: q == r.value || q in store <==> InPages(q)
      ensures forall q :: q in store ==> SizeOf(q) == old(SizeOf(q))
      ensures r.Some? ==> r.value.page < |pages| && old(pages[r.value.page].Place(nunits)) == Some(r.value.unit)
      ensures forall i :: (if r.Some? then r.value.page + 1 else 0) <= i < |pages| ==>
        old(pages[i].Place(nunits)) == None
    {
      hide NoDangling, RefersInto, Page.HeapPage.Place, SizeOf, Normal, PagesOk, StoreIs, AllApart;
      var k := |pages|;
      while k > 0
        invariant 0 <= k <= |pages| && Normal()
        invariant forall q :: q in store ==> SizeOf(q) == old(SizeOf(q))
        invariant forall i :: 0 <= i < k ==> pages[i].Place(nunits) == old(pages[i].Place(nunits))
        invariant forall i :: k <= i < |pages| ==> old(pages[i].Place(nunits)) == None
      {
        k := k - 1;
        OpenNormal();
        ghost var was := AllObjs();
        var u := AllocIn(k, pages[k], nunits);
        if u.Some? {
          NowPlaced(k, u.value, was);
          return Some(Ref(k, u.value));
        }
        StillNormal(was);
      }
      OpenNormal();
      return None;
    }

    /** `heap_alloc`: a free run in the newest page that has one, or nothing when no page has. */
    method HeapAlloc(nunits: nat, o: Object) returns (r: Option<Ref>)
      requires Normal() && Fits(nunits) && RefersInto(o, store.Keys)
      modifies this`store, pages`freep, pages`objs, pages`marked, Bitmaps(), Others()
      ensures Normal() && (r.None? ==> store == old(store))
      ensures r.Some? ==> r.value !in old(store) && store == old(store)[r.value := o] && SizeOf(r.value) == nunits
      ensures forall q :: q in old(store) ==> SizeOf(q) == old(SizeOf(q))
      ensures r.Some? ==> r.value.page < |pages| && old(pages[r.value.page].Place(nunits)) == Some(r.value.unit)
      ensures forall i :: (if r.Some? then r.value.page + 1 else 0) <= i < |pages| ==>
        old(pages[i].Place(nunits)) == None
    {
      hide Normal, PagesOk, InStore, StoreIs, InPages, Fits, SizeOf, NoDangling, RefersInto, Page.HeapPage.Place;
      OpenNormal();
      r := FindPlace(nunits);
      if r.Some? {
        PutObject(r.value, o, store);
      } else {
        BackToNormal();
      }
    }

    lemma BackToNormal()
      requires PagesOk() && InStore() && NoDangling(store) && weaks == None && chain == []
      requires forall i :: 0 <= i < |pages| ==> pages[i].marked == pages[i].objs
      ensures Normal()
    {
    }

    lemma OpenNormal()
      requires Normal()
      ensures PagesOk() && InStore() && NoDangling(store) && StoreIs(AllObjs()) && weaks == None && chain == []
      ensures forall i :: 0 <= i < |pages| ==> pages[i].marked == pages[i].objs
    {
      forall q: Ref
        ensures q in store <==> q.page in AllObjs() && q.unit in AllObjs()[q.page]
      {
        assert q in store <==> InPages(q);
      }
    }

    /** The allocated objects, page by page. */
    ghost function AllObjs(): map<nat, set<nat>>
      reads this`pages, pages
    {
      map i: nat | i < |pages| :: pages[i].objs
    }

    ghost predicate StoreIs(was: map<nat, set<nat>>)
      reads this`pages, this`store
    {
      (forall i: nat :: i in was <==> i < |pages|)
        && forall q: Ref :: q in store <==> q.page in was && q.unit in was[q.page]
    }

    lemma NowPlaced(k: nat, u: nat, was: map<nat, set<nat>>)
      requires StoreIs(was) && k < |pages| && u !in was[k] && pages[k].objs == was[k] + {u}
      requires forall i: nat :: i < |pages| && i != k ==> pages[i].objs == was[i]
      ensures Ref(k, u) !in store && forall q: Ref :: q == Ref(k, u) || q in store <==> InPages(q)
    {
      forall q: Ref
        ensures q == Ref(k, u) || q in store <==> InPages(q)
      {
        if q.page == k && q.unit == u { assert q == Ref(k, u); }
      }
    }

    lemma StillNormal(was: map<nat, set<nat>>)
      requires StoreIs(was) && PagesOk() && NoDangling(store) && weaks == None && chain == []
      requires forall i: nat :: i < |pages| ==> pages[i].objs == pages[i].marked == was[i]
      ensures Normal()
    {
      forall q: Ref
        ensures q in store <==> InPages(q)
      {
      }
    }

    /** Two objects of the store never share a unit. */
    lemma NoOverlap(a: Ref, b: Ref)
      requires Normal() && a in store && b in store && a != b && a.page == b.page
      ensures a.unit + SizeOf(a) <= b.unit || b.unit + SizeOf(b) <= a.unit
      ensures 0 < SizeOf(a) && a.page < |pages| && a.unit + SizeOf(a) <= pages[a.page].units
    {
      OpenValid();
      assert InPages(a) && InPages(b) && pages[a.page].Valid();
    }

    /** `heap_morecore`: one more page, empty. */
    method MoreCore(units: nat)
      requires Normal()
      modifies this`pages
      ensures Normal() && store == old(store) && |pages| == |old(pages)| + 1 && old(pages) <= pages
      ensures var p := pages[|old(pages)|]; fresh(p) && p.units == units && p.objs == {} && p.freep == 0
    {
      hide NoDangling, Page.RunsOk, Page.Shows;
      OpenNormal();
      ghost var n := |pages|;
      var p := new Page.HeapPage(units);
      forall i | 0 <= i < n
        ensures pages[i].Valid() && Arrays(pages[i]) !! Arrays(p)
      {
        assert old(PageOk(i));
      }
      pages := pages + [p];
      forall i | 0 <= i < |pages|
        ensures PageOk(i)
      {
      }
      forall q: Ref
        ensures q in store <==> InPages(q)
      {
        assert q in store <==> old(InPages(q));
      }
    }
  }

  // ---------- units ----------

  /** The entries of a symbol table that are still to be looked at, or have no symbol yet, or a live one. */
  ghost function Interned(table: map<nat, Option<Ref>>, todo: set<nat>, live: set<Ref>): map<nat, Option<Ref>> {
    map s | s in table && (s in todo || (table[s].Some? ==> table[s].value in live)) :: table[s]
  }

  function Threshold(total: nat): nat {
    total * 77 / 100
  }

  /** The threshold is reached when the units in use, and one more, are above 77 percent of all units. */
  lemma ThresholdIs(total: nat, inuse: int)
    ensures Threshold(total) <= inuse <==> 77 * total < 100 * (inuse + 1)
  {
  }

  /** The units of some pages, the units of the objects in them, and how far the sum that the sweeper adds
      up exceeds these. */
  ghost function Capacity(ps: seq<Page.HeapPage>): nat {
    if ps == [] then 0 else Capacity(ps[..|ps| - 1]) + ps[|ps| - 1].units
  }

  ghost function SizesOf(ps: seq<Page.HeapPage>): set<object> {
    set i | 0 <= i < |ps| :: ps[i].sizes as object
  }

  ghost function BitmapsOf(ps: seq<Page.HeapPage>): set<object> {
    set i | 0 <= i < |ps| :: ps[i].bitmap as object
  }

  ghost function InUse(ps: seq<Page.HeapPage>): nat
    reads ps, SizesOf(ps)
  {
    if ps == [] then 0
    else
      assert ps[|ps| - 1] in ps && ps[|ps| - 1].sizes in SizesOf(ps);
      assert forall i :: 0 <= i < |ps| - 1 ==> ps[..|ps| - 1][i] == ps[i];
      InUse(ps[..|ps| - 1]) + Page.UnitsUsed(ps[|ps| - 1].objs, ps[|ps| - 1].sizes[..])
  }

  ghost function Excess(ps: seq<Page.HeapPage>): int
    reads ps, BitmapsOf(ps)
  {
    if ps == [] then 0
    else
      assert ps[|ps| - 1] in ps && ps[|ps| - 1].bitmap in BitmapsOf(ps);
      assert forall i :: 0 <= i < |ps| - 1 ==> ps[..|ps| - 1][i] == ps[i];
      Excess(ps[..|ps| - 1]) + PopCount.Excess(ps[|ps| - 1].bitmap[..])
  }

  /** What one page adds to the sum, read off its bitmap. */
  ghost predicate Tallied(p: Page.HeapPage, u: nat, x: int)
    reads p, p.sizes, p.bitmap
  {
    u == Page.UnitsUsed(p.marked, p.sizes[..]) && x == PopCount.Excess(p.bitmap[..])
  }

  lemma {:induction false} Tally(ps: seq<Page.HeapPage>) returns (us: seq<nat>, xs: seq<int>)
    ensures |us| == |xs| == |ps| && forall i :: 0 <= i < |ps| ==> Tallied(ps[i], us[i], xs[i])
    decreases |ps|
  {
    hide Page.UnitsUsed, PopCount.Excess;
    us, xs := [], [];
    if ps != [] {
      var p := ps[|ps| - 1];
      us, xs := Tally(ps[..|ps| - 1]);
      us, xs := us + [Page.UnitsUsed(p.marked, p.sizes[..])], xs + [PopCount.Excess(p.bitmap[..])];
    }
  }

  lemma NoPages()
    ensures Capacity([]) == 0 && Sum([]) == 0
  {
  }

  lemma MorePages(ps: seq<Page.HeapPage>, k: nat, us: seq<nat>, xs: seq<int>)
    requires k < |ps| == |us| == |xs|
    ensures Capacity(ps[..k + 1]) == Capacity(ps[..k]) + ps[k].units
    ensures Sum(us[..k + 1]) == Sum(us[..k]) + us[k] && Sum(xs[..k + 1]) == Sum(xs[..k]) + xs[k]
  {
    assert ps[..k + 1][..k] == ps[..k] && us[..k + 1][..k] == us[..k] && xs[..k + 1][..k] == xs[..k];
  }

  lemma {:induction false} SumsAre(ps: seq<Page.HeapPage>, us: seq<nat>, xs: seq<int>)
    requires |us| == |xs| == |ps|
    requires forall i :: 0 <= i < |ps| ==> Tallied(ps[i], us[i], xs[i]) && ps[i].objs == ps[i].marked
    ensures InUse(ps) + Excess(ps) == Sum(us) + Sum(xs)
    decreases |ps|
  {
    hide Page.UnitsUsed, PopCount.Excess;
    if ps != [] {
      var n := |ps| - 1;
      SumsAre(ps[..n], us[..n], xs[..n]);
    }
  }

  ghost function Sum(xs: seq<int>): int {
    if xs == [] then 0 else Sum(xs[..|xs| - 1]) + xs[|xs| - 1]
  }

  lemma NewObject(st: Store, r: Ref, o: Object)
    requires NoDangling(st) && (forall c :: Holds(o, c) ==> c in st) && (o.Weak? ==> o.weak == [])
    ensures NoDangling(st[r := o])
  {
    hide Holds;
  }

  lemma Released(st0: Store, st1: Store, live: set<Ref>, finalized: seq<Ref>)
    requires st1.Keys == st0.Keys && live <= st0.Keys
    requires forall r :: r in st1 && r in live ==> st1[r] == Pruned(st0[r], live)
    requires forall r: Ref :: r in finalized <==> r in st0 && r !in live
    ensures st1 - (set r | r in finalized) == Survivors(st0, live)
    ensures Survivors(st0, live).Keys == live
  {
  }

  /** The arrays of a page that marking leaves alone. */
  ghost predicate NotBitmap(p: Page.HeapPage, bms: set<object>) {
    var a: object, b: object := p.shadow, p.sizes;
    a !in bms && b !in bms
  }

  lemma ShadowApart(pages: seq<Page.HeapPage>, i: nat)
    requires AllApart(pages) && i < |pages| && Page.Apart(pages[i].bitmap, pages[i].shadow, pages[i].sizes)
    ensures NotBitmap(pages[i], set k | 0 <= k < |pages| :: pages[k].bitmap as object)
  {
    forall k | 0 <= k < |pages| && k != i
      ensures var a: object, b: object, c: object := pages[i].shadow, pages[i].sizes, pages[k].bitmap; a != c && b != c
    {
      PagesApart(pages, i, k);
    }
  }

  ghost predicate NoRepeats(s: seq<Ref>) {
    forall i, j :: 0 <= i < j < |s| ==> s[i] != s[j]
  }

  function RefsIn(k: nat, units: seq<nat>): (rs: seq<Ref>)
    ensures |rs| == |units| && forall i :: 0 <= i < |rs| ==> rs[i] == Ref(k, units[i])
  {
    seq(|units|, i requires 0 <= i < |units| => Ref(k, units[i]))
  }

  lemma OnePage(s: seq<Ref>, k: nat, units: seq<nat>)
    requires NoRepeats(s) && Page.Ascending(units) && forall r :: r in s ==> r.page < k
    ensures NoRepeats(s + RefsIn(k, units))
    ensures forall r: Ref :: r in RefsIn(k, units) <==> r.page == k && r.unit in units
  {
    var t := RefsIn(k, units);
    forall r: Ref
      ensures r in t <==> r.page == k && r.unit in units
    {
      if r.page == k && r.unit in units {
        var i :| 0 <= i < |units| && units[i] == r.unit;
        assert t[i] == r;
      }
    }
    assert forall i :: 0 <= i < |s| ==> s[i] in s;
  }

  lemma RefsOfIs(vs: seq<Val>, r: Ref)
    ensures r in RefsOf(vs) <==> Obj(r) in vs
  {
  }

  /** The tables from place `idx` of the chain on have lost their dead entries. */
  ghost predicate PrunedFrom(st0: Store, st: Store, chain: seq<Ref>, idx: nat, m: set<Ref>)
    requires idx <= |chain|
  {
    st.Keys == st0.Keys && forall r :: r in st ==> st[r] == if r in chain[idx..] then Pruned(st0[r], m) else st0[r]
  }

  lemma NonePruned(st: Store, chain: seq<Ref>)
    ensures forall m :: PrunedFrom(st, st, chain, |chain|, m)
  {
  }

  lemma TableHere(prev: map<Ref, Option<Ref>>, chain: seq<Ref>, idx: nat, st0: Store, st: Store, m: set<Ref>, w: Ref)
    requires 0 < idx <= |chain| && w == chain[idx - 1] && PrunedFrom(st0, st, chain, idx, m)
    requires exists head :: Chained(head, prev, chain, st0, m)
    ensures w in st && st[w].Weak? && w in prev && prev[w] == if idx == 1 then None else Some(chain[idx - 2])
  {
    var head :| Chained(head, prev, chain, st0, m);
    PrevLink(head, prev, chain, idx - 1);
    assert w in chain;
  }

  lemma PrunedOne(st0: Store, st: Store, chain: seq<Ref>, idx: nat, m: set<Ref>, kept: seq<(Ref, Val)>)
    requires 0 < idx <= |chain| && PrunedFrom(st0, st, chain, idx, m) && chain[idx - 1] in st
      && st[chain[idx - 1]].Weak?
    requires (forall i, j :: 0 <= i < j < |chain| ==> chain[i] != chain[j]) && kept == Keep(st[chain[idx - 1]].weak, m)
    ensures PrunedFrom(st0, st[chain[idx - 1] := Weak(kept)], chain, idx - 1, m)
  {
    hide Keep;
    var w := chain[idx - 1];
    assert w !in chain[idx..];
    assert chain[idx - 1..] == [w] + chain[idx..];
  }

  lemma AllPruned(st0: Store, st: Store, chain: seq<Ref>, m: set<Ref>)
    requires PrunedFrom(st0, st, chain, 0, m) && exists head, prev :: Chained(head, prev, chain, st0, m)
    ensures forall r :: r in st && r in m ==> st[r] == Pruned(st0[r], m)
  {
    hide Linked, Keep;
    assert chain[0..] == chain;
  }

  ghost function RefsOf(vs: seq<Val>): set<Ref> {
    set i | 0 <= i < |vs| && vs[i].Obj? :: vs[i].r
  }

  /** The tables from place `idx` of the chain on are closed. */
  ghost predicate Scanned(chain: seq<Ref>, idx: nat, st: Store, m: set<Ref>) {
    forall i :: idx <= i < |chain| && chain[i] in st ==> TableClosed(st[chain[i]], m)
  }

  lemma NoneScanned(chain: seq<Ref>, st: Store, m: set<Ref>)
    ensures Scanned(chain, |chain|, st, m)
  {
  }

  lemma OneScanned(chain: seq<Ref>, idx: nat, st: Store, m: set<Ref>)
    requires idx < |chain| && Scanned(chain, idx + 1, st, m) && (chain[idx] in st ==> TableClosed(st[chain[idx]], m))
    ensures Scanned(chain, idx, st, m)
  {
    hide TableClosed;
  }

  lemma PrevLink(weaks: Option<Ref>, prev: map<Ref, Option<Ref>>, chain: seq<Ref>, i: nat)
    requires Linked(weaks, prev, chain) && i < |chain|
    ensures chain[i] in prev && prev[chain[i]] == if i == 0 then None else Some(chain[i - 1])
  {
  }

  lemma NoTwice(weaks: Option<Ref>, prev: map<Ref, Option<Ref>>, chain: seq<Ref>)
    requires Linked(weaks, prev, chain)
    ensures weaks == if chain == [] then None else Some(chain[|chain| - 1])
    ensures forall i, j :: 0 <= i < j < |chain| ==> chain[i] != chain[j]
  {
  }

  lemma NoChain(prev: map<Ref, Option<Ref>>)
    ensures Linked(None, prev, [])
  {
  }

  lemma NotTable(o: Object, m: set<Ref>)
    requires !o.Weak?
    ensures TableClosed(o, m)
  {
  }

  lemma EntryIs(e: (Ref, Val), m: set<Ref>)
    ensures EntryClosed(e, m) <==> (e.0 in m && e.1.Obj? ==> e.1.r in m)
  {
  }

  lemma NowMarked(st: Store, m0: set<Ref>, m1: set<Ref>, o: Ref)
    requires MarkedFrom(st, m0, m1, o)
    ensures m0 <= m1 && o in m1
  {
  }

  lemma FewerThan(keys: set<Ref>, m0: set<Ref>, m: set<Ref>, m1: set<Ref>, r: Ref)
    requires m0 <= m <= m1 && r in keys && r !in m && r in m1
    ensures |keys - m1| < |keys - m0|
  {
    SmallerSet(keys - m1, (keys - m0) - {r});
  }

  /** `prev` links the chain from its head, the table met last. */
  ghost predicate Linked(weaks: Option<Ref>, prev: map<Ref, Option<Ref>>, chain: seq<Ref>) {
    && weaks == (if chain == [] then None else Some(chain[|chain| - 1]))
    && (forall i :: 0 <= i < |chain| ==> chain[i] in prev && prev[chain[i]] == if i == 0 then None
        else Some(chain[i - 1]))
    && (forall i, j :: 0 <= i < j < |chain| ==> chain[i] != chain[j])
  }

  /** The chain holds each marked weak table once. */
  ghost predicate Chained(weaks: Option<Ref>, prev: map<Ref, Option<Ref>>, chain: seq<Ref>, st: Store, m: set<Ref>) {
    && Linked(weaks, prev, chain)
    && forall w: Ref :: w in chain <==> w in m && w in st && st[w].Weak?
  }

  lemma ChainedMore(weaks: Option<Ref>, prev: map<Ref, Option<Ref>>, chain: seq<Ref>, st: Store, m: set<Ref>, w: Ref)
    requires Chained(weaks, prev, chain, st, m) && w !in m && w in st && st[w].Weak?
    ensures Chained(Some(w), prev[w := weaks], chain + [w], st, m + {w})
  {
    assert forall i :: 0 <= i < |chain| ==> chain[i] in chain;
  }

  lemma ChainedStill(weaks: Option<Ref>, prev: map<Ref, Option<Ref>>, chain: seq<Ref>, st: Store, m: set<Ref>, w: Ref)
    requires Chained(weaks, prev, chain, st, m) && (w in st ==> !st[w].Weak?)
    ensures Chained(weaks, prev, chain, st, m + {w})
  {
  }

  lemma Fewer(keys: set<Ref>, m: set<Ref>, m1: set<Ref>, r: Ref)
    requires r in keys && r !in m && m1 == m + {r}
    ensures |keys - m1| < |keys - m|
  {
    assert keys - m1 == (keys - m) - {r};
  }

  lemma SmallerSet(a: set<Ref>, b: set<Ref>)
    requires a <= b
    ensures |a| <= |b|
    decreases b
  {
    if a != {} {
      var x :| x in a;
      SmallerSet(a - {x}, b - {x});
    }
  }

  lemma Child(st: Store, obj: Ref, c: Ref)
    requires NoDangling(st) && obj in st && c in Inner(st[obj])
    ensures c in st
  {
    HoldsIs(st[obj], c);
  }

  lemma TailChild(st: Store, obj: Ref, c: Ref)
    requires NoDangling(st) && obj in st && Tail(st[obj]) == Some(c)
    ensures c in st
  {
    HoldsIs(st[obj], c);
  }

  lemma Grown(st: Store, m0: set<Ref>, m1: set<Ref>, o: Ref)
    requires MarkedFrom(st, m0, m1, o)
    ensures m0 <= m1
  {
  }

  ghost function Arrays(p: Page.HeapPage): set<object> {
    var a: object, b: object, c: object := p.bitmap, p.shadow, p.sizes;
    {a, b, c}
  }

  ghost predicate AllApart(pages: seq<Page.HeapPage>) {
    forall i, j :: 0 <= i < |pages| && 0 <= j < |pages| && i != j ==>
      pages[i] != pages[j]
      && Separate(pages[i], pages[j])
  }

  lemma PagesApart(pages: seq<Page.HeapPage>, i: nat, k: nat)
    requires AllApart(pages) && i < |pages| && k < |pages| && i != k
    ensures pages[i] != pages[k] && Arrays(pages[i]) !! Arrays(pages[k])
    ensures var a: object, b: object, c: object := pages[i].bitmap, pages[i].shadow, pages[i].sizes;
            var d: object, e: object, f: object := pages[k].bitmap, pages[k].shadow, pages[k].sizes;
            a != d && a != e && a != f && b != d && b != e && b != f && c != d && c != e && c != f
  {
    var a: object, b: object, c: object := pages[i].bitmap, pages[i].shadow, pages[i].sizes;
    var d: object, e: object, f: object := pages[k].bitmap, pages[k].shadow, pages[k].sizes;
    assert Separate(pages[i], pages[k]);
    assert a in Arrays(pages[i]) && b in Arrays(pages[i]) && c in Arrays(pages[i]);
    assert d in Arrays(pages[k]) && e in Arrays(pages[k]) && f in Arrays(pages[k]);
  }

  lemma PagesDiffer(pages: seq<Page.HeapPage>, k: nat)
    requires AllApart(pages) && k < |pages|
    ensures forall i :: 0 <= i < |pages| && i != k ==> pages[i] != pages[k]
  {
  }

  ghost predicate Separate(p: Page.HeapPage, q: Page.HeapPage) {
    Arrays(p) !! Arrays(q)
  }
}
