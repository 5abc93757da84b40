/** Variables under merging: what the direct run finds, sets, binds and allocates, the optimized
    run finds, sets, binds and allocates at the home of the frame. */
module Sharing {
  import opened Util
  import opened Syntax
  import opened CoreForms
  import opened Merging
  import S = Source
  import D = Direct

  lemma RelFrame(lv: Levels, w: World, s: D.Store, h: S.Store, g: nat)
    requires Rel(lv, w, s, h) && g < |s.frames|
    ensures |s.frames| == |w.phi| && |h.frames| == |w.lev| && FrameOk(lv, w, s, h, g) && TargetOk(lv, w, h, w.phi[g])
  {
  }

  /** A variable of an outer direct frame is found at its home; one kept among the globals is found
      in no frame. */
  lemma {:induction false} FindRel(lv: Levels, w: World, s: D.Store, h: S.Store, g: nat, x: Name, g0: nat)
    requires Rel(lv, w, s, h) && g < |s.frames| && D.Find(s.frames, g, x) == Some(g0)
    ensures g0 < |s.frames| && x in s.frames[g0].vars && VarOk(lv, w, s, h, g0, x) && Depth(w, g0) <= Depth(w, g)
    ensures S.FindFrame(h.frames, Home(w, g), x) == Spot(w, g0)
    decreases g
  {
    hide Rel, ValRel, ValueAt;
    RelFrame(lv, w, s, h, g);
    if x in s.frames[g].vars {
      FindHere(lv, w, s, h, g, x);
    } else {
      var p := s.frames[g].up.value;
      FindRel(lv, w, s, h, p, x, g0);
      RelFrame(lv, w, s, h, g0);
    }
  }

  lemma FindHere(lv: Levels, w: World, s: D.Store, h: S.Store, g: nat, x: Name)
    requires |s.frames| == |w.phi| && |h.frames| == |w.lev| && g < |s.frames|
    requires FrameOk(lv, w, s, h, g) && TargetOk(lv, w, h, w.phi[g]) && x in s.frames[g].vars
    ensures VarOk(lv, w, s, h, g, x) && S.FindFrame(h.frames, Home(w, g), x) == Spot(w, g)
  {
    hide ValRel;
  }

  /** Names outside the levels are in no frame. */
  lemma {:induction false} FindNone(lv: Levels, w: World, s: D.Store, h: S.Store, t: nat, x: Name)
    requires Rel(lv, w, s, h) && x !in lv
    ensures S.FindFrame(h.frames, t, x) == None
    decreases t
  {
    hide ValRel;
    if t < |h.frames| {
      assert TargetOk(lv, w, h, t);
      if h.frames[t].up.Some? { FindNone(lv, w, s, h, h.frames[t].up.value, x); }
    }
  }

  /** At the place of `p` the value is what target lookup reads. */
  lemma LookupRel(lv: Levels, w: World, s: D.Store, h: S.Store, g: nat, x: Name)
    requires Rel(lv, w, s, h) && g < |s.frames| && D.Lookup(s, g, x).Some?
    ensures S.Lookup(h, Home(w, g), x).Some?
    ensures ValRel(lv, w, D.Lookup(s, g, x).value, S.Lookup(h, Home(w, g), x).value)
  {
    match D.Find(s.frames, g, x)
    case Some(g0) =>
      hide Rel, ValRel, S.FindFrame, D.Find;
      FindRel(lv, w, s, h, g, x, g0);
    case None =>
      hide ValRel, S.FindFrame, D.Find;
      assert GlobalOk(lv, w, s, h, x);
      FindNone(lv, w, s, h, Home(w, g), x);
  }

  // ---------- writing ----------

  /** The optimized run's store after a write to the cell of `x` in place `p`. */
  function WriteAt(h: S.Store, p: Option<nat>, x: Name, y: S.SVal): S.Store {
    match p
    case None => h.(globals := h.globals[x := Some(y)])
    case Some(t) =>
      if t < |h.frames| && IndexOf(h.frames[t].names, x) < |h.frames[t].vals| then
        h.(frames := h.frames[t := h.frames[t].(vals := h.frames[t].vals[IndexOf(h.frames[t].names, x) := y])])
      else h
  }

  /** Same frames and cells, other contents. */
  predicate SameShape(h: S.Store, h1: S.Store) {
    && |h1.frames| == |h.frames| && h.globals.Keys <= h1.globals.Keys
    && forall t :: 0 <= t < |h.frames| ==>
         h1.frames[t].names == h.frames[t].names && h1.frames[t].up == h.frames[t].up
           && |h1.frames[t].vals| == |h.frames[t].vals|
  }

  predicate CellsOk(h: S.Store) {
    forall t :: 0 <= t < |h.frames| && h.frames[t].up.Some? ==> |h.frames[t].vals| == |h.frames[t].names|
  }

  lemma WriteShape(h: S.Store, p: Option<nat>, x: Name, y: S.SVal)
    requires Has(h, p, x)
    ensures SameShape(h, WriteAt(h, p, x, y))
    ensures forall q, z :: Has(WriteAt(h, p, x, y), q, z) == Has(h, q, z)
  {
  }

  lemma IndexApart(xs: seq<Name>, x: Name, z: Name)
    requires x in xs && z in xs && x != z
    ensures IndexOf(xs, x) != IndexOf(xs, z)
  {
  }

  lemma WriteValue(h: S.Store, p: Option<nat>, x: Name, y: S.SVal, q: Option<nat>, z: Name)
    requires Has(h, p, x) && (p.Some? ==> |h.frames[p.value].vals| == |h.frames[p.value].names|)
    ensures ValueAt(WriteAt(h, p, x, y), q, z) == if q == p && z == x then Some(y) else ValueAt(h, q, z)
  {
    if q == p && p.Some? && z != x && z in h.frames[p.value].names { IndexApart(h.frames[p.value].names, x, z); }
  }

  /** What relating the contents of a store takes, once its frames are right. */
  ghost predicate Contents(lv: Levels, w: World, s: D.Store, h: S.Store) {
    && (forall g, x :: 0 <= g < |s.frames| && x in s.frames[g].vars ==> VarOk(lv, w, s, h, g, x))
    && (forall x :: x in s.globals ==> GlobalOk(lv, w, s, h, x))
  }

  ghost predicate SameFrames(s: D.Store, s1: D.Store) {
    |s1.frames| == |s.frames| && forall g :: 0 <= g < |s.frames| ==>
      s1.frames[g].up == s.frames[g].up && (s.frames[g].up == None ==> s1.frames[g] == s.frames[g])
  }

  lemma RelContents(lv: Levels, w: World, s: D.Store, h: S.Store)
    requires Rel(lv, w, s, h)
    ensures Contents(lv, w, s, h) && CellsOk(h)
  {
    hide VarOk, GlobalOk;
    forall g, x | 0 <= g < |s.frames| && x in s.frames[g].vars ensures VarOk(lv, w, s, h, g, x) {
      assert FrameOk(lv, w, s, h, g);
    }
    RelCells(lv, w, s, h);
  }

  lemma RelAgain(lv: Levels, w: World, s: D.Store, h: S.Store, s1: D.Store, h1: S.Store)
    requires Rel(lv, w, s, h) && SameShape(h, h1) && SameFrames(s, s1) && Contents(lv, w, s1, h1)
    requires NotShared(w, s1) && NoneEarly(lv, s1, h1)
    ensures Rel(lv, w, s1, h1)
  {
    hide VarOk, GlobalOk, NotShared, NoneEarly;
    forall t | 0 <= t < |h1.frames| ensures TargetOk(lv, w, h1, t) { assert TargetOk(lv, w, h, t); }
    forall g | 0 <= g < |s1.frames| ensures FrameOk(lv, w, s1, h1, g) {
      assert FrameOk(lv, w, s, h, g);
      assert TargetOk(lv, w, h, w.phi[g]);
    }
  }

  /** A place that holds cells of its own frame. */
  lemma PlaceOk(lv: Levels, w: World, s: D.Store, h: S.Store, g: nat)
    requires Rel(lv, w, s, h) && g < |s.frames|
    ensures Spot(w, g).Some? ==> Spot(w, g).value == Home(w, g) < |h.frames|
    ensures Spot(w, g).Some? ==> |h.frames[Home(w, g)].vals| == |h.frames[Home(w, g)].names|
  {
    hide VarOk, GlobalOk;
    RelFrame(lv, w, s, h, g);
  }

  /** Writing to a cell that no direct variable has keeps the stores related. */
  lemma WriteUnused(lv: Levels, w: World, s: D.Store, h: S.Store, g: nat, x: Name, y: S.SVal)
    requires Rel(lv, w, s, h) && g < |s.frames| && Has(h, Spot(w, g), x) && !Used(w, s, Spot(w, g), x) && x in lv
    ensures Rel(lv, w, s, WriteAt(h, Spot(w, g), x, y))
    ensures Grow(w, s, h, w, s, WriteAt(h, Spot(w, g), x, y), Spot(w, g), [x])
    ensures ValueAt(WriteAt(h, Spot(w, g), x, y), Spot(w, g), x) == Some(y)
  {
    hide ValRel, Rel, Has, ValueAt, WriteAt;
    var p := Spot(w, g);
    var h1 := WriteAt(h, p, x, y);
    PlaceOk(lv, w, s, h, g);
    WriteShape(h, p, x, y);
    RelContents(lv, w, s, h);
    forall q, z ensures ValueAt(h1, q, z) == if q == p && z == x then Some(y) else ValueAt(h, q, z) {
      WriteValue(h, p, x, y, q, z);
    }
    forall g0, z | 0 <= g0 < |s.frames| && z in s.frames[g0].vars ensures VarOk(lv, w, s, h1, g0, z) {
      assert VarOk(lv, w, s, h, g0, z);
      RelFrame(lv, w, s, h, g0);
      assert UsedBy(w, s, Spot(w, g0), z, g0);
    }
    forall z | z in s.globals ensures GlobalOk(lv, w, s, h1, z) { assert GlobalOk(lv, w, s, h, z); }
    RelNotShared(lv, w, s, h);
    assert NoneEarly(lv, s, h1);
    RelAgain(lv, w, s, h, s, h1);
  }

  lemma RelNotShared(lv: Levels, w: World, s: D.Store, h: S.Store)
    requires Rel(lv, w, s, h)
    ensures NotShared(w, s) && NoneEarly(lv, s, h)
  {
  }

  /** One more variable in a frame shares no cell, when nothing had its cell before. */
  lemma StillApart(w: World, s: D.Store, g: nat, x: Name, v: D.DVal)
    requires g < |s.frames| && NotShared(w, s) && (x in s.frames[g].vars || !Used(w, s, Spot(w, g), x))
    ensures NotShared(w, D.WithVar(s, g, x, v))
  {
    hide Spot;
    var s1 := D.WithVar(s, g, x, v);
    if g < |w.phi| && x in s.frames[g].vars { assert UsedBy(w, s, Spot(w, g), x, g); }
    forall q, z, g1, g2 | UsedBy(w, s1, q, z, g1) && UsedBy(w, s1, q, z, g2) ensures g1 == g2 {
      assert (g1 == g && z == x) || UsedBy(w, s, q, z, g1);
      assert (g2 == g && z == x) || UsedBy(w, s, q, z, g2);
    }
  }

  /** Writing a related value to the cell of a variable of direct frame `g`, old or new. */
  lemma WriteVar(lv: Levels, w: World, s: D.Store, h: S.Store, g: nat, x: Name, v: D.DVal, y: S.SVal)
    requires Rel(lv, w, s, h) && g < |s.frames| && s.frames[g].up.Some? && Has(h, Spot(w, g), x) && ValRel(lv, w, v, y)
    requires x in lv && lv[x] == Depth(w, g)
    requires x in s.frames[g].vars || !Used(w, s, Spot(w, g), x)
    ensures Rel(lv, w, D.WithVar(s, g, x, v), WriteAt(h, Spot(w, g), x, y))
    ensures Grow(w, s, h, w, D.WithVar(s, g, x, v), WriteAt(h, Spot(w, g), x, y), Spot(w, g), [x])
    ensures x in s.frames[g].vars ==>
      Grow(w, s, h, w, D.WithVar(s, g, x, v), WriteAt(h, Spot(w, g), x, y), Spot(w, g), [])
  {
    hide ValRel, Rel, Has, ValueAt, WriteAt;
    var p := Spot(w, g);
    var s1, h1 := D.WithVar(s, g, x, v), WriteAt(h, p, x, y);
    PlaceOk(lv, w, s, h, g);
    WriteShape(h, p, x, y);
    RelContents(lv, w, s, h);
    RelNotShared(lv, w, s, h);
    RelFrame(lv, w, s, h, g);
    forall q, z ensures ValueAt(h1, q, z) == if q == p && z == x then Some(y) else ValueAt(h, q, z) {
      WriteValue(h, p, x, y, q, z);
    }
    forall q, z, g0 ensures UsedBy(w, s1, q, z, g0) <==> UsedBy(w, s, q, z, g0) || (q == p && z == x && g0 == g) {}
    forall g0, z | 0 <= g0 < |s.frames| && z in s1.frames[g0].vars ensures VarOk(lv, w, s1, h1, g0, z) {
      if g0 == g && z == x {
      } else {
        assert VarOk(lv, w, s, h, g0, z);
        RelFrame(lv, w, s, h, g0);
        assert UsedBy(w, s, Spot(w, g0), z, g0);
        if x in s.frames[g].vars { assert UsedBy(w, s, p, x, g); }
      }
    }
    forall z | z in s.globals ensures GlobalOk(lv, w, s1, h1, z) { assert GlobalOk(lv, w, s, h, z); }
    StillApart(w, s, g, x, v);
    assert NoneEarly(lv, s1, h1);
    RelAgain(lv, w, s, h, s1, h1);
    WriteVarGrow(w, s, h, g, x, v, h1);
  }

  lemma WriteVarGrow(w: World, s: D.Store, h: S.Store, g: nat, x: Name, v: D.DVal, h1: S.Store)
    requires g < |s.frames| && g < |w.phi| && SameShape(h, h1) && (forall q, z :: Has(h1, q, z) == Has(h, q, z))
    requires forall q, z :: !(q == Spot(w, g) && z == x) ==> ValueAt(h1, q, z) == ValueAt(h, q, z)
    ensures Grow(w, s, h, w, D.WithVar(s, g, x, v), h1, Spot(w, g), [x])
    ensures x in s.frames[g].vars ==> Grow(w, s, h, w, D.WithVar(s, g, x, v), h1, Spot(w, g), [])
  {
    hide Has, ValueAt;
    var s1 := D.WithVar(s, g, x, v);
    forall q, z, g0
      ensures UsedBy(w, s1, q, z, g0) <==> UsedBy(w, s, q, z, g0) || (q == Spot(w, g) && z == x && g0 == g) {}
    forall q, z | !Used(w, s, q, z) && !(q == Spot(w, g) && z == x) ensures !Used(w, s1, q, z) {}
    if x in s.frames[g].vars {
      assert UsedBy(w, s, Spot(w, g), x, g);
    }
  }

  /** Writing a related value to a global, old or new. */
  lemma WriteGlobal(lv: Levels, w: World, s: D.Store, h: S.Store, x: Name, v: D.DVal, y: S.SVal)
    requires Rel(lv, w, s, h) && Has(h, None, x) && ValRel(lv, w, v, y) && x !in lv
    ensures Rel(lv, w, D.WithGlobal(s, x, v), WriteAt(h, None, x, y))
    ensures Grow(w, s, h, w, D.WithGlobal(s, x, v), WriteAt(h, None, x, y), None, [x])
    ensures x in s.globals ==> Grow(w, s, h, w, D.WithGlobal(s, x, v), WriteAt(h, None, x, y), None, [])
  {
    hide ValRel, Rel, Has, ValueAt, WriteAt;
    var s1, h1 := D.WithGlobal(s, x, v), WriteAt(h, None, x, y);
    WriteShape(h, None, x, y);
    RelContents(lv, w, s, h);
    RelNotShared(lv, w, s, h);
    forall q, z ensures ValueAt(h1, q, z) == if q == None && z == x then Some(y) else ValueAt(h, q, z) {
      WriteValue(h, None, x, y, q, z);
    }
    forall q, z, g0 ensures UsedBy(w, s1, q, z, g0) <==> UsedBy(w, s, q, z, g0) {}
    forall g0, z | 0 <= g0 < |s.frames| && z in s1.frames[g0].vars ensures VarOk(lv, w, s1, h1, g0, z) {
      assert VarOk(lv, w, s, h, g0, z);
    }
    forall z | z in s1.globals ensures GlobalOk(lv, w, s1, h1, z) {
      if z != x { assert GlobalOk(lv, w, s, h, z); }
    }
    assert NoneEarly(lv, s1, h1);
    RelAgain(lv, w, s, h, s1, h1);
  }

  lemma WriteAtFrame(h: S.Store, f: nat, p: Option<nat>, x: Name, y: S.SVal)
    requires Has(h, p, x) && S.FindFrame(h.frames, f, x) == p && CellsOk(h) && (p.Some? ==> h.frames[p.value].up.Some?)
    ensures S.Update(h, f, x, y) == Some(WriteAt(h, p, x, y))
  {
    hide S.FindFrame;
  }

  lemma HasValue(h: S.Store, p: Option<nat>, x: Name)
    requires ValueAt(h, p, x).Some?
    ensures Has(h, p, x)
  {
  }

  lemma RelCells(lv: Levels, w: World, s: D.Store, h: S.Store)
    requires Rel(lv, w, s, h)
    ensures CellsOk(h)
  {
    hide VarOk, GlobalOk;
    forall t | 0 <= t < |h.frames| && h.frames[t].up.Some? ensures |h.frames[t].vals| == |h.frames[t].names| {
      assert TargetOk(lv, w, h, t);
    }
  }

  /** `set!` on both sides. */
  lemma UpdateRel(lv: Levels, w: World, s: D.Store, h: S.Store, g: nat, x: Name, v: D.DVal, y: S.SVal)
    returns (h1: S.Store)
    requires Rel(lv, w, s, h) && g < |s.frames| && D.Update(s, g, x, v).Some? && ValRel(lv, w, v, y)
    ensures S.Update(h, Home(w, g), x, y) == Some(h1)
    ensures Rel(lv, w, D.Update(s, g, x, v).value, h1)
    ensures Grow(w, s, h, w, D.Update(s, g, x, v).value, h1, Spot(w, g), [])
  {
    RelCells(lv, w, s, h);
    match D.Find(s.frames, g, x)
    case Some(g0) =>
      hide ValRel, Rel, Has, ValueAt, WriteAt, CellsOk, Grow, D.Find, S.FindFrame;
      FindRel(lv, w, s, h, g, x, g0);
      HasValue(h, Spot(w, g0), x);
      h1 := WriteAt(h, Spot(w, g0), x, y);
      RelFrame(lv, w, s, h, g0);
      WriteVar(lv, w, s, h, g0, x, v, y);
      GrowNothing(w, s, h, w, D.Update(s, g, x, v).value, h1, Spot(w, g0), Spot(w, g));
      WriteAtFrame(h, Home(w, g), Spot(w, g0), x, y);
    case None =>
      assert GlobalOk(lv, w, s, h, x);
      hide ValRel, Rel, Has, ValueAt, WriteAt, CellsOk, Grow, D.Find, S.FindFrame;
      FindNone(lv, w, s, h, Home(w, g), x);
      HasValue(h, None, x);
      h1 := WriteAt(h, None, x, y);
      WriteGlobal(lv, w, s, h, x, v, y);
      GrowNothing(w, s, h, w, D.Update(s, g, x, v).value, h1, None, Spot(w, g));
      WriteAtFrame(h, Home(w, g), None, x, y);
  }

  lemma GrowNothing(w: World, s: D.Store, h: S.Store, w1: World, s1: D.Store, h1: S.Store, p: Option<nat>,
                    q: Option<nat>)
    requires Grow(w, s, h, w1, s1, h1, p, [])
    ensures Grow(w, s, h, w1, s1, h1, q, [])
  {
    hide Used, Has, ValueAt;
  }

  /** Assigning to a cell of the place where the code runs. */
  lemma UpdateHere(lv: Levels, w: World, s: D.Store, h: S.Store, g: nat, x: Name, y: S.SVal)
    requires Rel(lv, w, s, h) && g < |s.frames| && Has(h, Spot(w, g), x)
    requires if x in lv then lv[x] == Depth(w, g) else Depth(w, g) == 0
    ensures S.Update(h, Home(w, g), x, y) == Some(WriteAt(h, Spot(w, g), x, y))
  {
    RelCells(lv, w, s, h);
    RelFrame(lv, w, s, h, g);
    hide ValRel, ValueAt, WriteAt, VarOk, GlobalOk, CellsOk;
    WriteAtFrame(h, Home(w, g), Spot(w, g), x, y);
  }

  /** `define` becomes an assignment to the hoisted variable. */
  lemma BindRel(lv: Levels, w: World, s: D.Store, h: S.Store, g: nat, x: Name, v: D.DVal, y: S.SVal)
    returns (h1: S.Store)
    requires Rel(lv, w, s, h) && g < |s.frames| && ValRel(lv, w, v, y)
    requires Has(h, Spot(w, g), x) && !Used(w, s, Spot(w, g), x)
    requires if s.frames[g].up == None then x !in lv else x in lv && lv[x] == Depth(w, g)
    ensures S.Update(h, Home(w, g), x, y) == Some(h1)
    ensures Rel(lv, w, D.Bind(s, g, x, v), h1) && Grow(w, s, h, w, D.Bind(s, g, x, v), h1, Spot(w, g), [x])
  {
    RelFrame(lv, w, s, h, g);
    h1 := WriteAt(h, Spot(w, g), x, y);
    if s.frames[g].up == None {
      assert Depth(w, g) == 0;
      hide ValRel, Rel, Has, ValueAt, WriteAt, FrameOk, TargetOk, Used, Grow;
      UpdateHere(lv, w, s, h, g, x, y);
      WriteGlobal(lv, w, s, h, x, v, y);
    } else {
      hide ValRel, Rel, Has, ValueAt, WriteAt, FrameOk, TargetOk, Used, Grow;
      UpdateHere(lv, w, s, h, g, x, y);
      WriteVar(lv, w, s, h, g, x, v, y);
    }
  }
}
