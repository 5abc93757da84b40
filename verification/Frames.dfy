/** New frames: a call on the spot shares the frame of the code around it, every other call gets a
    frame of its own in both runs. */
module Frames {
  import opened Util
  import opened Syntax
  import opened CoreForms
  import opened Merging
  import opened Sharing
  import S = Source
  import D = Direct

  // ---------- the definitions of a call on the spot ----------

  /** The names that the arguments of a call on the spot and their evaluation define. */
  function RedexDefs(params: seq<Name>, args: seq<Core>): seq<Name>
    requires |params| == |args|
    decreases |args|
  {
    if args == [] then [] else [params[0]] + Defs(args[0]) + RedexDefs(params[1..], args[1..])
  }

  lemma {:induction false} DefsOfDefines(params: seq<Name>, args: seq<Core>, body: Core)
    requires |params| == |args|
    ensures Defs(Defines(params, args, body)) == RedexDefs(params, args) + Defs(body)
    decreases |args|
  {
    if args == [] {
      assert Defines(params, args, body) == body;
      assert RedexDefs(params, args) + Defs(body) == Defs(body);
    } else {
      DefsOfDefines(params[1..], args[1..], body);
      var rest := Defines(params[1..], args[1..], body);
      assert Defs(CBegin(CDefine(params[0], args[0]), rest)) == Defs(CDefine(params[0], args[0])) + Defs(rest);
      assert Defs(CDefine(params[0], args[0])) == [params[0]] + Defs(args[0]);
      assert [params[0]] + Defs(args[0]) + (RedexDefs(params[1..], args[1..]) + Defs(body))
          == ([params[0]] + Defs(args[0]) + RedexDefs(params[1..], args[1..])) + Defs(body);
    }
  }

  lemma OptimizeCall(fn: Core, args: seq<Core>)
    ensures Optimize(CCall(fn, args)) ==
      if Fires(Optimize(fn), args) then Defines(Optimize(fn).params, OptimizeAll(args), Optimize(fn).body)
      else CCall(Optimize(fn), OptimizeAll(args))
  {
  }

  /** A functor that fires makes its parameters and the body of `Functor`. */
  lemma FunctorParts(fn: Core)
    requires Optimize(fn).CLambda?
    ensures Functor(fn).params == Optimize(fn).params && Functor(fn).rest == Optimize(fn).rest
    ensures Optimize(Functor(fn).body) == Optimize(fn).body
  {
  }

  /** The definitions of fitting code live at its depth. */
  lemma {:induction false} DefsFit(lv: Levels, e: Core, d: nat)
    requires Fits(lv, e, d, false)
    ensures AllAt(lv, Defs(Optimize(e)), d)
    decreases Size(e), 1
  {
    match e
    case CQuote(_) | CVar(_) | CLambda(_, _, _) =>
    case CSet(_, e1) => DefsFit(lv, e1, d);
    case CIf(c, t, f) =>
      DefsFit(lv, c, d);
      DefsFit(lv, t, d);
      DefsFit(lv, f, d);
    case CBegin(a, b) =>
      DefsFit(lv, a, d);
      DefsFit(lv, b, d);
    case CDefine(x, e1) => DefsFit(lv, e1, d);
    case CCall(fn, args) =>
      OptimizeCall(fn, args);
      DefsAllFit(lv, args, d);
      if Fires(Optimize(fn), args) {
        FunctorParts(fn);
        DefsFit(lv, Functor(fn).body, d);
        DefsOfDefines(Optimize(fn).params, OptimizeAll(args), Optimize(fn).body);
        RedexDefsAre(lv, Functor(fn).params, OptimizeAll(args), d);
      } else {
        DefsFit(lv, fn, d);
      }
  }

  lemma {:induction false} DefsAllFit(lv: Levels, es: seq<Core>, d: nat)
    requires FitsAll(lv, es, d, false)
    ensures AllAt(lv, DefsAll(OptimizeAll(es)), d)
    decreases SizeAll(es), 2
  {
    if es != [] {
      DefsFit(lv, es[0], d);
      DefsAllFit(lv, es[1..], d);
      assert OptimizeAll(es)[1..] == OptimizeAll(es[1..]);
    }
  }

  lemma {:induction false} RedexDefsAre(lv: Levels, params: seq<Name>, args: seq<Core>, d: nat)
    requires |params| == |args| && AllAt(lv, params, d) && AllAt(lv, DefsAll(args), d)
    ensures AllAt(lv, RedexDefs(params, args), d)
    decreases |args|
  {
    if args != [] {
      RedexDefsAre(lv, params[1..], args[1..], d);
    }
  }

  // ---------- the contents of new frames ----------

  lemma {:induction false} ParamsAt(params: seq<Name>, vs: seq<D.DVal>, x: Name)
    requires |params| <= |vs| && NoDup(params)
    ensures x in D.Params(params, vs) <==> x in params
    ensures x in params ==> D.Params(params, vs)[x] == vs[IndexOf(params, x)]
    decreases params
  {
    if params != [] {
      ParamsAt(params[1..], vs[1..], x);
    }
  }

  lemma {:induction false} IndexOfPrefix(xs: seq<Name>, ys: seq<Name>, x: Name)
    requires x in xs
    ensures IndexOf(xs + ys, x) == IndexOf(xs, x)
    decreases xs
  {
    if xs[0] != x {
      assert (xs + ys)[1..] == xs[1..] + ys;
      IndexOfPrefix(xs[1..], ys, x);
    }
  }

  /** The cells of old frames are where they were. */
  lemma OldCells(lv: Levels, w: World, s: D.Store, h: S.Store, w1: World, s1: D.Store, h1: S.Store)
    requires Rel(lv, w, s, h) && Ext(w, w1) && s.frames <= s1.frames && h.frames <= h1.frames
    requires s1.globals == s.globals && h1.globals == h.globals
    ensures forall g :: 0 <= g < |s.frames| ==> Spot(w1, g) == Spot(w, g) && Depth(w1, g) == Depth(w, g)
    ensures forall g, x :: 0 <= g < |s.frames| && x in s.frames[g].vars ==> VarOk(lv, w1, s1, h1, g, x)
    ensures forall x :: x in s1.globals ==> GlobalOk(lv, w1, s1, h1, x)
  {
    forall g | 0 <= g < |s.frames| ensures Spot(w1, g) == Spot(w, g) && Depth(w1, g) == Depth(w, g) {
      RelFrame(lv, w, s, h, g);
    }
    RelContents(lv, w, s, h);
    hide Rel, ValRel;
    forall g, x | 0 <= g < |s.frames| && x in s.frames[g].vars ensures VarOk(lv, w1, s1, h1, g, x) {
      assert VarOk(lv, w, s, h, g, x);
      ValRelExt(lv, w, w1, s.frames[g].vars[x], ValueAt(h, Spot(w, g), x).value);
      assert ValueAt(h1, Spot(w1, g), x) == ValueAt(h, Spot(w, g), x);
    }
    forall x | x in s1.globals ensures GlobalOk(lv, w1, s1, h1, x) {
      assert GlobalOk(lv, w, s, h, x);
      ValRelExt(lv, w, w1, s.globals[x], ValueAt(h, None, x).value);
    }
  }

  /** A store with one more direct frame is related when the new parts are. */
  lemma RelGrown(lv: Levels, w: World, s: D.Store, h: S.Store, w1: World, s1: D.Store, h1: S.Store)
    requires Rel(lv, w, s, h) && Ext(w, w1) && s.frames <= s1.frames && h.frames <= h1.frames
    requires s1.globals == s.globals && h1.globals == h.globals
    requires |w1.phi| == |s1.frames| == |s.frames| + 1 && |w1.lev| == |h1.frames|
    requires forall t :: |h.frames| <= t < |h1.frames| ==> TargetOk(lv, w1, h1, t)
    requires FrameOk(lv, w1, s1, h1, |s.frames|)
    requires forall x :: x in s1.frames[|s.frames|].vars ==> !Used(w, s, Spot(w1, |s.frames|), x)
    ensures Rel(lv, w1, s1, h1)
  {
    OldCells(lv, w, s, h, w1, s1, h1);
    hide VarOk, GlobalOk;
    forall t | 0 <= t < |h1.frames| ensures TargetOk(lv, w1, h1, t) {
      if t < |h.frames| { assert TargetOk(lv, w, h, t); }
    }
    forall g | 0 <= g < |s1.frames| ensures FrameOk(lv, w1, s1, h1, g) {
      if g < |s.frames| { assert FrameOk(lv, w, s, h, g); }
    }
    forall p, x, g1, g2 | UsedBy(w1, s1, p, x, g1) && UsedBy(w1, s1, p, x, g2) ensures g1 == g2 {
      UsedByOld(w, s, w1, s1, p, x, g1);
      UsedByOld(w, s, w1, s1, p, x, g2);
    }
  }

  lemma UsedByOld(w: World, s: D.Store, w1: World, s1: D.Store, p: Option<nat>, x: Name, g: nat)
    requires |w.phi| == |s.frames| && s.frames <= s1.frames && |s1.frames| == |s.frames| + 1
    requires forall k :: 0 <= k < |s.frames| ==> Spot(w1, k) == Spot(w, k)
    requires UsedBy(w1, s1, p, x, g)
    ensures g < |s.frames| ==> UsedBy(w, s, p, x, g) && Used(w, s, p, x)
    ensures g >= |s.frames| ==> g == |s.frames| && p == Spot(w1, g) && x in s1.frames[g].vars
  {
    if g < |s.frames| { assert UsedBy(w, s, p, x, g); }
  }

  /** A new direct frame uses the cells of its variables and no others. */
  lemma GrowFrame(lv: Levels, w: World, s: D.Store, h: S.Store, w1: World, s1: D.Store, h1: S.Store, p: Option<nat>,
                  xs: seq<Name>)
    requires Rel(lv, w, s, h) && Ext(w, w1) && s.frames <= s1.frames && h.frames <= h1.frames
    requires s1.globals == s.globals && h1.globals == h.globals
    requires |s1.frames| == |s.frames| + 1
    requires forall x :: x in s1.frames[|s.frames|].vars && Has(h, Spot(w1, |s.frames|), x) ==>
      Spot(w1, |s.frames|) == p && x in xs
    ensures Grow(w, s, h, w1, s1, h1, p, xs)
  {
    OldCells(lv, w, s, h, w1, s1, h1);
    hide VarOk, GlobalOk, TargetOk, FrameOk, NotShared;
    forall q, x | Has(h, q, x) ensures Has(h1, q, x) && ValueAt(h1, q, x) == ValueAt(h, q, x) {}
    forall q, x | Has(h, q, x) && !Used(w, s, q, x) && !(q == p && x in xs) ensures !Used(w1, s1, q, x) {
      forall g | UsedBy(w1, s1, q, x, g) ensures false { UsedByOld(w, s, w1, s1, q, x, g); }
    }
  }

  function SharedWorld(w: World, env: nat): World {
    World(w.phi + [Home(w, env)], w.lev)
  }

  /** A call on the spot, after its arguments have been assigned to the parameters' cells. */
  lemma AddShared(lv: Levels, w: World, s: D.Store, h: S.Store, env: nat, lam: Core, vs: seq<D.DVal>)
    requires Rel(lv, w, s, h) && env < |s.frames| && lam.CLambda? && lam.rest == None && |lam.params| == |vs|
    requires NoDup(lam.params) && AllAt(lv, lam.params, Depth(w, env))
    requires forall i :: 0 <= i < |vs| ==>
      && !Used(w, s, Spot(w, env), lam.params[i]) && ValueAt(h, Spot(w, env), lam.params[i]).Some?
      && ValRel(lv, w, vs[i], ValueAt(h, Spot(w, env), lam.params[i]).value)
    ensures Rel(lv, SharedWorld(w, env), s.(frames := s.frames + [D.NewFrame(lam, env, vs)]), h)
    ensures Grow(w, s, h, SharedWorld(w, env), s.(frames := s.frames + [D.NewFrame(lam, env, vs)]), h,
                 Spot(w, env), lam.params)
    ensures Spot(SharedWorld(w, env), |s.frames|) == Spot(w, env)
      && Depth(SharedWorld(w, env), |s.frames|) == Depth(w, env)
    ensures Home(SharedWorld(w, env), |s.frames|) == Home(w, env)
  {
    var g, w1, s1 := |s.frames|, SharedWorld(w, env), s.(frames := s.frames + [D.NewFrame(lam, env, vs)]);
    RelFrame(lv, w, s, h, env);
    hide Rel, ValRel, ValueAt, Used, Grow, Has;
    forall x ensures x in s1.frames[g].vars <==> x in lam.params { ParamsAt(lam.params, vs, x); }
    forall x | x in s1.frames[g].vars ensures VarOk(lv, w1, s1, h, g, x) {
      ParamsAt(lam.params, vs, x);
      ValRelExt(lv, w, w1, vs[IndexOf(lam.params, x)], ValueAt(h, Spot(w, env), x).value);
    }
    assert FrameOk(lv, w1, s1, h, g);
    RelGrown(lv, w, s, h, w1, s1, h);
    GrowFrame(lv, w, s, h, w1, s1, h, Spot(w, env), lam.params);
  }

  function FreshWorld(w: World, h: S.Store, env: nat): World {
    World(w.phi + [|h.frames|], w.lev + [Depth(w, env) + 1])
  }

  /** The frame of a call in the optimized run. */
  function FreshFrame(w: World, lam: Core, env: nat, ys: seq<S.SVal>): S.Frame
    requires lam.CLambda? && S.ArityOk(|lam.params|, lam.rest.Some?, |ys|)
  {
    S.NewFrame(Normalize(Optimize(lam)), Home(w, env), ys)
  }

  lemma PrefixNoDup(xs: seq<Name>, ys: seq<Name>)
    requires NoDup(xs + ys)
    ensures NoDup(xs) && NoDup(ys)
    ensures forall x :: x in ys ==> x !in xs
  {
    forall i | 0 <= i < |xs| ensures (xs + ys)[i] == xs[i] {}
    forall j | 0 <= j < |ys| ensures (xs + ys)[|xs| + j] == ys[j] {}
    forall y | y in ys ensures y !in xs {
      var j :| 0 <= j < |ys| && ys[j] == y;
      assert (xs + ys)[|xs| + j] == y;
    }
  }

  /** The names and cells of a new frame of the optimized run. */
  lemma FreshCells(lv: Levels, w: World, lam: Core, env: nat, vs: seq<D.DVal>, ys: seq<S.SVal>, x: Name)
    requires lam.CLambda? && S.ArityOk(|lam.params|, lam.rest.Some?, |vs|) && ValsRel(lv, w, vs, ys)
    requires NoDup(lam.params + RestNames(lam.rest) + Defs(Optimize(lam.body)))
    ensures var fr := FreshFrame(w, lam, env, ys);
      && |fr.vals| == |fr.names| && fr.up == Some(Home(w, env))
      && (x in fr.names <==> x in lam.params + RestNames(lam.rest) + Defs(Optimize(lam.body)))
      && (x in D.NewFrame(lam, env, vs).vars <==> x in lam.params + RestNames(lam.rest))
      && (x in D.NewFrame(lam, env, vs).vars ==>
            IndexOf(fr.names, x) < |fr.vals| && ValRel(lv, w, D.NewFrame(lam, env, vs).vars[x],
                                                       fr.vals[IndexOf(fr.names, x)]))
  {
    var ps, rs, ls := lam.params, RestNames(lam.rest), Hoisted(Optimize(lam.body), []);
    var fr := FreshFrame(w, lam, env, ys);
    FreshFrameIs(w, lam, env, ys);
    hide Fits, ValRel, Defs, Optimize, Normalize, Hoisted, FreshFrame;
    PrefixNoDup(ps + rs, Defs(Optimize(lam.body)));
    PrefixNoDup(ps, rs);
    HoistedAre(Optimize(lam.body), [], x);
    ParamsAt(ps, vs, x);
    FreshIndex(ps, rs, ls, x);
    if x in ps {
      hide D.NewFrame;
      assert fr.vals[IndexOf(ps, x)] == fr.vals[..|ps|][IndexOf(ps, x)] == ys[IndexOf(ps, x)];
    } else if x in rs {
      ListRel(lv, w, vs[|ps|..], ys[|ps|..]);
    }
  }

  lemma FreshIndex(ps: seq<Name>, rs: seq<Name>, ls: seq<Name>, x: Name)
    requires NoDup(ps + rs)
    ensures x in ps ==> IndexOf(ps + rs + ls, x) == IndexOf(ps, x) < |ps|
    ensures |rs| == 1 && x in rs ==> x !in ps && IndexOf(ps + rs + ls, x) == |ps|
  {
    PrefixNoDup(ps, rs);
    if x in ps {
      assert ps + rs + ls == ps + (rs + ls);
      IndexOfPrefix(ps, rs + ls, x);
    } else if |rs| == 1 && x in rs {
      IndexOfPrefix(ps + rs, ls, x);
      assert (ps + rs)[|ps|] == x;
      IndexOfAt(ps + rs, |ps|);
    }
  }

  lemma FreshFrameIs(w: World, lam: Core, env: nat, ys: seq<S.SVal>)
    requires lam.CLambda? && S.ArityOk(|lam.params|, lam.rest.Some?, |ys|)
    ensures var fr, n := FreshFrame(w, lam, env, ys), |lam.params|;
      && fr.names == lam.params + RestNames(lam.rest) + Hoisted(Optimize(lam.body), [])
      && |fr.vals| == |fr.names| && fr.up == Some(Home(w, env)) && fr.vals[..n] == ys[..n]
      && (lam.rest.Some? ==> fr.vals[n] == S.ListOf(ys[n..]))
  {
    hide Optimize, Normalize, Hoisted;
    OptimizeLambda(lam);
  }

  lemma OptimizeLambda(lam: Core)
    requires lam.CLambda?
    ensures Normalize(Optimize(lam)) ==
      Lambda(lam.params, lam.rest, Hoisted(Optimize(lam.body), []), Normalize(Optimize(lam.body)))
  {
  }

  /** A call of a closure. */
  lemma AddFresh(lv: Levels, w: World, s: D.Store, h: S.Store, env: nat, lam: Core, vs: seq<D.DVal>, ys: seq<S.SVal>,
                 p: Option<nat>)
    requires Rel(lv, w, s, h) && env < |s.frames| && lam.CLambda? && S.ArityOk(|lam.params|, lam.rest.Some?, |vs|)
    requires Fits(lv, lam, Depth(w, env), false) && ValsRel(lv, w, vs, ys)
    ensures var g, w1 := |s.frames|, FreshWorld(w, h, env);
      var s1, h1 := s.(frames := s.frames + [D.NewFrame(lam, env, vs)]),
        h.(frames := h.frames + [FreshFrame(w, lam, env, ys)]);
      && Rel(lv, w1, s1, h1) && Grow(w, s, h, w1, s1, h1, p, [])
      && Ready(w1, s1, h1, Spot(w1, g), Defs(Optimize(lam.body)))
      && Home(w1, g) == |h.frames| && Depth(w1, g) == Depth(w, env) + 1
  {
    var g, w1 := |s.frames|, FreshWorld(w, h, env);
    var fr := FreshFrame(w, lam, env, ys);
    var s1, h1 := s.(frames := s.frames + [D.NewFrame(lam, env, vs)]), h.(frames := h.frames + [fr]);
    var own := lam.params + RestNames(lam.rest);
    FreshNames(lv, w, s, h, env, lam);
    hide Rel, ValRel, Grow, Fits, Defs, Optimize, Normalize, Ready, VarOk, TargetOk, FrameOk, D.NewFrame, FreshFrame;
    FreshParts(lv, w, s, h, env, lam, vs, ys);
    FreshUnused(lv, w, s, h, |h.frames|);
    RelGrown(lv, w, s, h, w1, s1, h1);
    GrowFrame(lv, w, s, h, w1, s1, h1, p, []);
    FreshReady(lv, w, s, h, w1, s1, h1, own, Defs(Optimize(lam.body)));
  }

  /** The new frame and its home. */
  lemma FreshParts(lv: Levels, w: World, s: D.Store, h: S.Store, env: nat, lam: Core, vs: seq<D.DVal>, ys: seq<S.SVal>)
    requires Rel(lv, w, s, h) && env < |s.frames| && lam.CLambda? && S.ArityOk(|lam.params|, lam.rest.Some?, |vs|)
    requires Fits(lv, lam, Depth(w, env), false) && ValsRel(lv, w, vs, ys)
    ensures var w1, own := FreshWorld(w, h, env), lam.params + RestNames(lam.rest);
      var s1, h1 := s.(frames := s.frames + [D.NewFrame(lam, env, vs)]),
        h.(frames := h.frames + [FreshFrame(w, lam, env, ys)]);
      && |s.frames| == |w.phi| && |h.frames| == |w.lev|
      && TargetOk(lv, w1, h1, |h.frames|) && FrameOk(lv, w1, s1, h1, |s.frames|)
      && (forall x :: x in h1.frames[|h.frames|].names <==> x in own + Defs(Optimize(lam.body)))
      && (forall x :: x in s1.frames[|s.frames|].vars <==> x in own)
      && Spot(w1, |s.frames|) == Some(|h.frames|)
  {
    var g, w1, own := |s.frames|, FreshWorld(w, h, env), lam.params + RestNames(lam.rest);
    var fr := FreshFrame(w, lam, env, ys);
    var s1, h1 := s.(frames := s.frames + [D.NewFrame(lam, env, vs)]), h.(frames := h.frames + [fr]);
    RelFrame(lv, w, s, h, env);
    FreshNames(lv, w, s, h, env, lam);
    hide Rel, ValRel, Fits, Defs, Optimize, Normalize;
    forall x ensures x in fr.names <==> x in own + Defs(Optimize(lam.body)) { FreshCells(lv, w, lam, env, vs, ys, x); }
    forall x ensures x in s1.frames[g].vars <==> x in own { FreshCells(lv, w, lam, env, vs, ys, x); }
    FreshCells(lv, w, lam, env, vs, ys, "");
    hide FreshFrame;
    assert TargetOk(lv, w1, h1, |h.frames|);
    forall x | x in s1.frames[g].vars ensures VarOk(lv, w1, s1, h1, g, x) {
      FreshCells(lv, w, lam, env, vs, ys, x);
      ValRelExt(lv, w, w1, s1.frames[g].vars[x], fr.vals[IndexOf(fr.names, x)]);
    }
  }

  lemma FreshNames(lv: Levels, w: World, s: D.Store, h: S.Store, env: nat, lam: Core)
    requires Rel(lv, w, s, h) && env < |s.frames| && lam.CLambda? && Fits(lv, lam, Depth(w, env), false)
    ensures var own := lam.params + RestNames(lam.rest);
      && AllAt(lv, own, Depth(w, env) + 1) && AllAt(lv, Defs(Optimize(lam.body)), Depth(w, env) + 1)
      && NoDup(own + Defs(Optimize(lam.body))) && NoDup(Defs(Optimize(lam.body)))
      && forall x :: x in Defs(Optimize(lam.body)) ==> x !in own
  {
    DefsFit(lv, lam.body, Depth(w, env) + 1);
    PrefixNoDup(lam.params + RestNames(lam.rest), Defs(Optimize(lam.body)));
  }

  lemma FreshUnused(lv: Levels, w: World, s: D.Store, h: S.Store, t: nat)
    requires Rel(lv, w, s, h) && t >= |h.frames|
    ensures forall x :: !Used(w, s, Some(t), x) && !Has(h, Some(t), x)
  {
    hide VarOk, GlobalOk;
    forall g | 0 <= g < |s.frames| ensures Spot(w, g) != Some(t) { RelFrame(lv, w, s, h, g); }
  }

  lemma FreshReady(lv: Levels, w: World, s: D.Store, h: S.Store, w1: World, s1: D.Store, h1: S.Store, own: seq<Name>,
                   ds: seq<Name>)
    requires Rel(lv, w, s, h) && |s1.frames| == |s.frames| + 1 && s.frames <= s1.frames && |h1.frames| == |h.frames| + 1
    requires Ext(w, w1) && s1.globals == s.globals && h.frames <= h1.frames && h1.globals == h.globals
    requires Spot(w1, |s.frames|) == Some(|h.frames|) && NoDup(ds)
    requires forall x :: x in h1.frames[|h.frames|].names <==> x in own + ds
    requires forall x :: x in s1.frames[|s.frames|].vars <==> x in own
    requires forall x :: x in ds ==> x !in own
    ensures Ready(w1, s1, h1, Spot(w1, |s.frames|), ds)
  {
    OldCells(lv, w, s, h, w1, s1, h1);
    FreshUnused(lv, w, s, h, |h.frames|);
    hide VarOk, GlobalOk, TargetOk, FrameOk, NotShared;
    forall x | x in ds ensures !Used(w1, s1, Some(|h.frames|), x) {
      forall g | UsedBy(w1, s1, Some(|h.frames|), x, g) ensures false {
        UsedByOld(w, s, w1, s1, Some(|h.frames|), x, g);
      }
    }
  }

  /** A program starts in a top-level frame of its own. */
  function TopWorld(w: World, h: S.Store): World {
    World(w.phi + [|h.frames|], w.lev + [0])
  }

  lemma AddTop(lv: Levels, w: World, s: D.Store, h: S.Store, top: S.Frame)
    requires Rel(lv, w, s, h) && top.names == [] && top.up == None
    ensures var s1, h1 := s.(frames := s.frames + [D.TOP_FRAME]), h.(frames := h.frames + [top]);
      Rel(lv, TopWorld(w, h), s1, h1) && Grow(w, s, h, TopWorld(w, h), s1, h1, None, [])
  {
    var g, w1 := |s.frames|, TopWorld(w, h);
    var s1, h1 := s.(frames := s.frames + [D.TOP_FRAME]), h.(frames := h.frames + [top]);
    RelSizes(lv, w, s, h);
    assert s1.frames[g].vars == map[];
    hide Rel, ValRel, Grow;
    assert TargetOk(lv, w1, h1, |h.frames|);
    assert FrameOk(lv, w1, s1, h1, g);
    RelGrown(lv, w, s, h, w1, s1, h1);
    GrowFrame(lv, w, s, h, w1, s1, h1, None, []);
  }

  lemma RelSizes(lv: Levels, w: World, s: D.Store, h: S.Store)
    requires Rel(lv, w, s, h)
    ensures |w.phi| == |s.frames| && |w.lev| == |h.frames|
  {
  }
}
