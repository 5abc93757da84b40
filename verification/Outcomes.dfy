/** Errors and endless runs through `optimize_beta` and `normalize`. */
module Outcomes {
  import opened Util
  import opened Syntax
  import opened CoreForms
  import opened Merging
  import opened Sharing
  import opened Frames
  import opened BetaNormalize
  import Builtins
  import Fuel
  import S = Source
  import D = Direct

  function Max(a: nat, b: nat): nat {
    if a < b then b else a
  }

  // ---------- one part of a form after another ----------

  /** A part of a form that gives a value, and where the code after it, defining `ys`, can run. */
  lemma Part(lv: Levels, w: World, s: D.Store, h: S.Store, env: nat, e: Core, top: bool, ys: seq<Name>, n: nat, m: nat)
    returns (w1: World, h1: S.Store, y: S.SVal)
    requires Rel(lv, w, s, h) && env < |s.frames| && top == (s.frames[env].up == None)
      && Fits(lv, e, Depth(w, env), top)
    requires Ready(w, s, h, Spot(w, env), Defs(Optimize(e)) + ys) && D.Eval(e, env, s, n).Ok?
    requires n <= m || !S.Eval(Normalize(Optimize(e)), Home(w, env), h, m).Timeout?
    ensures S.Eval(Normalize(Optimize(e)), Home(w, env), h, m) == S.Ok(y, h1)
    ensures var Ok(v, s1) := D.Eval(e, env, s, n);
      && Rel(lv, w1, s1, h1) && ValRel(lv, w1, v, y) && env < |s1.frames| && s1.frames[env].up == s.frames[env].up
      && Ready(w1, s1, h1, Spot(w1, env), ys) && Ext(w, w1)
    ensures Home(w1, env) == Home(w, env) && Depth(w1, env) == Depth(w, env) && Spot(w1, env) == Spot(w, env)
  {
    hide Rel, ValRel, Grow, Ready, Used, Has, ValueAt, Ends, Home, Depth, Spot, Optimize, Fits, Defs, Normalize, D.Eval,
      S.Eval;
    ReadyParts(w, s, h, Spot(w, env), Defs(Optimize(e)), ys);
    w1, h1, y := SimAt(lv, w, s, h, env, e, top, n, m);
    var Ok(v, s1) := D.Eval(e, env, s, n);
    Onward(lv, w, s, h, env, Defs(Optimize(e)), ys, v, s1, w1, h1, y);
  }

  /** The arguments of a call, likewise. */
  lemma Parts(lv: Levels, w: World, s: D.Store, h: S.Store, env: nat, es: seq<Core>, top: bool, n: nat, m: nat)
    returns (w1: World, h1: S.Store, ys: seq<S.SVal>)
    requires Rel(lv, w, s, h) && env < |s.frames| && top == (s.frames[env].up == None)
    requires FitsAll(lv, es, Depth(w, env), top) && Ready(w, s, h, Spot(w, env), DefsAll(OptimizeAll(es)))
    requires D.EvalArgs(es, env, s, n).ArgsOk?
    requires n <= m || !S.EvalArgs(NormalizeAll(OptimizeAll(es)), Home(w, env), h, m).ArgsTimeout?
    ensures S.EvalArgs(NormalizeAll(OptimizeAll(es)), Home(w, env), h, m) == S.ArgsOk(ys, h1)
    ensures Rel(lv, w1, D.EvalArgs(es, env, s, n).s, h1) && ValsRel(lv, w1, D.EvalArgs(es, env, s, n).vs, ys)
    ensures Ext(w, w1)
  {
    hide Rel, ValRel, Grow, Ready, Used, Has, ValueAt, Ends, Home, Depth, Spot, OptimizeAll, FitsAll, DefsAll,
      NormalizeAll, D.EvalArgs, S.EvalArgs;
    var k := Max(n, m);
    w1, h1, ys := SimArgs(lv, w, s, h, env, es, top, n, k);
    if k > m { Fuel.SourceArgsMore(NormalizeAll(OptimizeAll(es)), Home(w, env), h, m, k); }
    GrowExt(w, s, h, w1, D.EvalArgs(es, env, s, n).s, h1, Spot(w, env), DefsAll(OptimizeAll(es)));
  }

  /** What is defined while the value of a definition is computed, apart from the variable. */
  lemma DefinePart(w: World, s: D.Store, h: S.Store, p: Option<nat>, x: Name, e: Core)
    requires Ready(w, s, h, p, Defs(Optimize(CDefine(x, e))))
    ensures Ready(w, s, h, p, Defs(Optimize(e)))
  {
    hide Used, Has;
    assert Defs(Optimize(CDefine(x, e))) == [x] + Defs(Optimize(e));
    ReadyParts(w, s, h, p, [x], Defs(Optimize(e)));
  }

  lemma EitherPart(w: World, s: D.Store, h: S.Store, p: Option<nat>, t: Core, f: Core, b: Core)
    requires Ready(w, s, h, p, Defs(Optimize(t)) + Defs(Optimize(f))) && (b == t || b == f)
    ensures Ready(w, s, h, p, Defs(Optimize(b)))
  {
    hide Used, Has;
    ReadyParts(w, s, h, p, Defs(Optimize(t)), Defs(Optimize(f)));
  }

  // ---------- a functor that is a lambda has a value ----------

  /** Such a functor needs no more fuel than its size. */
  lemma {:induction false} FunctorEnds(fn: Core, env: nat, s: D.Store, n: nat)
    requires Optimize(fn).CLambda? && n >= Size(fn)
    ensures D.Eval(fn, env, s, n).Ok?
    ensures D.Eval(fn, env, s, n).v.Proc? && D.Eval(fn, env, s, n).v.closure.lam == Functor(fn)
    decreases Size(fn)
  {
    hide Builtins.Apply, D.Lookup, D.Update;
    if !fn.CLambda? {
      assert fn.CCall? && fn.args == [] && Fires(Optimize(fn.fn), []);
      FunctorEnds(fn.fn, env, s, n);
      FunctorParts(fn.fn);
      var Ok(v, s1) := D.Eval(fn.fn, env, s, n);
      var lam, env1 := Functor(fn.fn), v.closure.env;
      var s2 := s1.(frames := s1.frames + [D.NewFrame(lam, env1, [])]);
      assert D.Eval(fn, env, s, n) == D.ApplyProc(v, [], s1, n);
      assert D.Eval(fn, env, s, n) == D.Eval(lam.body, |s1.frames|, s2, n - 1);
      FunctorEnds(lam.body, |s1.frames|, s2, n - 1);
    }
  }

  /** With less fuel it has the same value or none yet. */
  lemma FunctorFails(fn: Core, env: nat, s: D.Store, n: nat)
    requires Optimize(fn).CLambda?
    ensures D.Eval(fn, env, s, n).Ok? || D.Eval(fn, env, s, n).Timeout?
  {
    hide D.Eval, Optimize;
    var k := Max(n, Size(fn));
    FunctorEnds(fn, env, s, k);
    if !D.Eval(fn, env, s, n).Timeout? { Fuel.DirectMore(fn, env, s, n, k); }
  }

  // ---------- endless runs ----------

  /** When the optimized form comes to an end, so does direct evaluation, given fuel enough. */
  lemma {:induction false} Settles(lv: Levels, w: World, s: D.Store, h: S.Store, env: nat, e: Core, top: bool, m: nat)
    returns (n: nat)
    requires CanRun(lv, w, s, h, env, e, top) && !S.Eval(Normalize(Optimize(e)), Home(w, env), h, m).Timeout?
    ensures !D.Eval(e, env, s, n).Timeout?
    decreases m, Size(e), 0
  {
    hide Rel, ValRel, Grow, Ready, Used, Has, ValueAt, Ends, Home, Depth, Spot, D.Lookup, S.Lookup, D.Update, S.Update,
      D.ApplyProc, S.ApplyProc;
    match e
    case CQuote(_) | CVar(_) | CLambda(_, _, _) => n := 0;
    case CSet(x, e1) => n := Settles(lv, w, s, h, env, e1, top, m);
    case CDefine(x, e1) =>
      DefinePart(w, s, h, Spot(w, env), x, e1);
      n := Settles(lv, w, s, h, env, e1, top, m);
    case CIf(c, t, f) => n := SettlesIf(lv, w, s, h, env, c, t, f, top, m);
    case CBegin(a, b) =>
      ReadyParts(w, s, h, Spot(w, env), Defs(Optimize(a)), Defs(Optimize(b)));
      n := Settles(lv, w, s, h, env, a, top, m);
      var o := D.Eval(a, env, s, n);
      if o.Ok? {
        var w1, h1, y := Part(lv, w, s, h, env, a, top, Defs(Optimize(b)), n, m);
        var k := Settles(lv, w1, o.s, h1, env, b, top, m);
        BothEnd(a, env, s, n, b, o.s, k);
        n := Max(n, k);
      }
    case CCall(fn, args) =>
      if Fires(Optimize(fn), args) {
        n := SettlesRedex(lv, w, s, h, env, fn, args, top, m);
      } else {
        n := SettlesCall(lv, w, s, h, env, fn, args, top, m);
      }
  }

  lemma BothEnd(a: Core, env: nat, s: D.Store, n: nat, b: Core, s1: D.Store, k: nat)
    requires !D.Eval(a, env, s, n).Timeout? && !D.Eval(b, env, s1, k).Timeout?
    ensures D.Eval(a, env, s, Max(n, k)) == D.Eval(a, env, s, n)
    ensures D.Eval(b, env, s1, Max(n, k)) == D.Eval(b, env, s1, k)
  {
    hide D.Eval;
    Fuel.DirectMore(a, env, s, n, Max(n, k));
    Fuel.DirectMore(b, env, s1, k, Max(n, k));
  }

  lemma {:induction false} SettlesIf(lv: Levels, w: World, s: D.Store, h: S.Store, env: nat, c: Core, t: Core, f: Core,
                                     top: bool, m: nat)
    returns (n: nat)
    requires CanRun(lv, w, s, h, env, CIf(c, t, f), top)
    requires !S.Eval(Normalize(Optimize(CIf(c, t, f))), Home(w, env), h, m).Timeout?
    ensures !D.Eval(CIf(c, t, f), env, s, n).Timeout?
    decreases m, Size(CIf(c, t, f)) - 1, 3
  {
    hide Rel, ValRel, Grow, Ready, Used, Has, ValueAt, Ends, Home, Depth, Spot, D.Lookup, S.Lookup, D.Update, S.Update,
      D.ApplyProc, S.ApplyProc;
    var ds := Defs(Optimize(t)) + Defs(Optimize(f));
    assert Defs(Optimize(CIf(c, t, f))) == Defs(Optimize(c)) + ds;
    ReadyParts(w, s, h, Spot(w, env), Defs(Optimize(c)), ds);
    n := Settles(lv, w, s, h, env, c, top, m);
    var o := D.Eval(c, env, s, n);
    if o.Ok? {
      var w1, h1, y := Part(lv, w, s, h, env, c, top, ds, n, m);
      FalseRel(lv, w1, o.v, y);
      var b := if o.v == Bool(false) then f else t;
      EitherPart(w1, o.s, h1, Spot(w, env), t, f, b);
      var k := Settles(lv, w1, o.s, h1, env, b, top, m);
      BothEnd(c, env, s, n, b, o.s, k);
      n := Max(n, k);
    }
  }

  lemma {:induction false} SettlesArgs(lv: Levels, w: World, s: D.Store, h: S.Store, env: nat,
                                       es: seq<Core>, top: bool, m: nat)
    returns (n: nat)
    requires Rel(lv, w, s, h) && env < |s.frames| && top == (s.frames[env].up == None)
    requires FitsAll(lv, es, Depth(w, env), top) && Ready(w, s, h, Spot(w, env), DefsAll(OptimizeAll(es)))
    requires !S.EvalArgs(NormalizeAll(OptimizeAll(es)), Home(w, env), h, m).ArgsTimeout?
    ensures !D.EvalArgs(es, env, s, n).ArgsTimeout?
    decreases m, SizeAll(es), 1
  {
    hide Rel, ValRel, Grow, Ready, Used, Has, ValueAt, Ends, Home, Depth, Spot, D.Lookup, S.Lookup, D.Update, S.Update,
      D.ApplyProc, S.ApplyProc;
    n := 0;
    if es != [] {
      var es1 := OptimizeAll(es);
      assert es1[1..] == OptimizeAll(es[1..]) && DefsAll(es1) == Defs(es1[0]) + DefsAll(es1[1..]);
      assert NormalizeAll(es1)[1..] == NormalizeAll(es1[1..]);
      ReadyParts(w, s, h, Spot(w, env), Defs(es1[0]), DefsAll(es1[1..]));
      n := Settles(lv, w, s, h, env, es[0], top, m);
      var o := D.Eval(es[0], env, s, n);
      if o.Ok? {
        var w1, h1, y := Part(lv, w, s, h, env, es[0], top, DefsAll(es1[1..]), n, m);
        var k := SettlesArgs(lv, w1, o.s, h1, env, es[1..], top, m);
        var j := Max(n, k);
        Fuel.DirectMore(es[0], env, s, n, j);
        Fuel.DirectArgsMore(es[1..], env, o.s, k, j);
        n := j;
      }
    }
  }

  lemma {:induction false} SettlesCall(lv: Levels, w: World, s: D.Store, h: S.Store, env: nat, fn: Core,
                                       args: seq<Core>, top: bool, m: nat)
    returns (n: nat)
    requires CanRun(lv, w, s, h, env, CCall(fn, args), top) && !Fires(Optimize(fn), args)
    requires !S.Eval(Normalize(Optimize(CCall(fn, args))), Home(w, env), h, m).Timeout?
    ensures !D.Eval(CCall(fn, args), env, s, n).Timeout?
    decreases m, Size(CCall(fn, args)) - 1, 3
  {
    hide Rel, ValRel, Grow, Ready, Used, Has, ValueAt, Ends, Home, Depth, Spot, D.ApplyProc, S.ApplyProc, Optimize,
      Fits;
    OptimizeCall(fn, args);
    FitsCall(lv, fn, args, Depth(w, env), top);
    var fn1, args1 := Optimize(fn), OptimizeAll(args);
    ReadyParts(w, s, h, Spot(w, env), Defs(fn1), DefsAll(args1));
    n := Settles(lv, w, s, h, env, fn, top, m);
    var o := D.Eval(fn, env, s, n);
    if o.Ok? {
      var w1, h1, y := Part(lv, w, s, h, env, fn, top, DefsAll(args1), n, m);
      var k := SettlesArgs(lv, w1, o.s, h1, env, args, top, m);
      var os := D.EvalArgs(args, env, o.s, k);
      var j := 0;
      if os.ArgsOk? {
        var w2, h2, ys := Parts(lv, w1, o.s, h1, env, args, top, k, m);
        ValRelExt(lv, w1, w2, o.v, y);
        j := SettlesApply(lv, w2, os.s, h2, o.v, y, os.vs, ys, m);
      }
      CallEnds(fn, args, env, s, n, k, j);
      n := Max(Max(n, k), j);
    }
  }

  /** A call comes to an end when its parts do. */
  lemma CallEnds(fn: Core, args: seq<Core>, env: nat, s: D.Store, n: nat, k: nat, j: nat)
    requires D.Eval(fn, env, s, n).Ok? && !D.EvalArgs(args, env, D.Eval(fn, env, s, n).s, k).ArgsTimeout?
    requires var o := D.Eval(fn, env, s, n);
      var os := D.EvalArgs(args, env, o.s, k);
      os.ArgsOk? ==> !D.ApplyProc(o.v, os.vs, os.s, j).Timeout?
    ensures !D.Eval(CCall(fn, args), env, s, Max(Max(n, k), j)).Timeout?
  {
    hide D.ApplyProc;
    var o := D.Eval(fn, env, s, n);
    var os := D.EvalArgs(args, env, o.s, k);
    var i := Max(Max(n, k), j);
    Fuel.DirectMore(fn, env, s, n, i);
    Fuel.DirectArgsMore(args, env, o.s, k, i);
    if os.ArgsOk? { Fuel.DirectApplyMore(o.v, os.vs, os.s, j, i); }
  }

  lemma {:induction false} SettlesApply(lv: Levels, w: World, s: D.Store, h: S.Store, v: D.DVal, y: S.SVal,
                                        vs: seq<D.DVal>, ys: seq<S.SVal>, m: nat)
    returns (n: nat)
    requires Rel(lv, w, s, h) && ValRel(lv, w, v, y) && ValsRel(lv, w, vs, ys) && !S.ApplyProc(y, ys, h, m).Timeout?
    ensures !D.ApplyProc(v, vs, s, n).Timeout?
    decreases m, 0, 0
  {
    hide Rel, ValRel, Grow, Ready, Used, Has, ValueAt, Ends, Depth, Spot, Optimize, Fits, Builtins.Apply, D.NewFrame,
      S.NewFrame;
    ProcRel(lv, w, v, y);
    n := 0;
    if v.Proc? && S.ArityOk(|v.closure.lam.params|, v.closure.lam.rest.Some?, |vs|) {
      var lam, env := v.closure.lam, v.closure.env;
      RelSizes(lv, w, s, h);
      ApplyEnter(lv, w, s, h, lam, env, vs, ys, None);
      var g, w0 := |s.frames|, FreshWorld(w, h, env);
      var s0, h0 := s.(frames := s.frames + [D.NewFrame(lam, env, vs)]),
        h.(frames := h.frames + [FreshFrame(w, lam, env, ys)]);
      assert S.ApplyProc(y, ys, h, m) == if m == 0 then S.Timeout
        else S.Eval(Normalize(Optimize(lam.body)), |h.frames|, h0, m - 1);
      n := Settles(lv, w0, s0, h0, g, lam.body, false, m - 1);
      n := n + 1;
    }
  }

  lemma {:induction false} SettlesRedexArgs(lv: Levels, w: World, s: D.Store, h: S.Store, env: nat, params: seq<Name>,
                                            args: seq<Core>, body: Core, ds: seq<Name>, top: bool, m: nat)
    returns (n: nat)
    requires Rel(lv, w, s, h) && env < |s.frames| && top == (s.frames[env].up == None) && |params| == |args|
    requires FitsAll(lv, args, Depth(w, env), top) && AllAt(lv, params, Depth(w, env))
    requires Ready(w, s, h, Spot(w, env), RedexDefs(params, OptimizeAll(args)) + ds)
    requires !S.Eval(Normalize(Defines(params, OptimizeAll(args), body)), Home(w, env), h, m).Timeout?
    ensures !D.EvalArgs(args, env, s, n).ArgsTimeout?
    decreases m, SizeAll(args), 3
  {
    hide Rel, ValRel, Grow, Ready, Used, Has, ValueAt, Ends, Home, Depth, Spot, S.Update, Assigned, Normalize, S.Eval;
    n := 0;
    if args != [] {
      var args1 := OptimizeAll(args);
      assert RedexDefs(params, args1) + ds == [params[0]] + Defs(args1[0]) + RestDefs(params, args1, ds);
      ReadyFirst(w, s, h, Spot(w, env), params[0], Defs(args1[0]), RestDefs(params, args1, ds));
      ReadyParts(w, s, h, Spot(w, env), Defs(args1[0]), [params[0]] + RestDefs(params, args1, ds));
      DefinesFirst(params, args1, body, Home(w, env), h, m);
      n := Settles(lv, w, s, h, env, args[0], top, m);
      var o := D.Eval(args[0], env, s, n);
      if o.Ok? {
        var w1, h2, y := SimFirst(lv, w, s, h, env, params, args, body, ds, top, n, m);
        var k := SettlesRedexArgs(lv, w1, o.s, h2, env, params[1..], args[1..], body, ds, top, m);
        var j := Max(n, k);
        Fuel.DirectMore(args[0], env, s, n, j);
        Fuel.DirectArgsMore(args[1..], env, o.s, k, j);
        n := j;
      }
    }
  }

  /** A call on the spot: its functor has a value, and its arguments can be run. */
  lemma RedexArgsReady(lv: Levels, w: World, s: D.Store, h: S.Store, env: nat, fn: Core,
                       args: seq<Core>, top: bool, n: nat)
    returns (w2: World)
    requires CanRun(lv, w, s, h, env, CCall(fn, args), top) && Fires(Optimize(fn), args) && D.Eval(fn, env, s, n).Ok?
    ensures var lam, s1 := Functor(fn), D.Eval(fn, env, s, n).s;
      && Rel(lv, w2, s1, h) && env < |s1.frames| && top == (s1.frames[env].up == None) && |lam.params| == |args|
      && FitsAll(lv, args, Depth(w2, env), top) && AllAt(lv, lam.params, Depth(w2, env))
      && Ready(w2, s1, h, Spot(w2, env), RedexDefs(lam.params, OptimizeAll(args)) + Defs(Optimize(lam.body)))
    ensures Home(w2, env) == Home(w, env)
    ensures Optimize(CCall(fn, args)) == Defines(Functor(fn).params, OptimizeAll(args), Optimize(Functor(fn).body))
  {
    hide Rel, ValRel, Grow, Ready, Used, Has, ValueAt, Ends, Home, Depth, Spot, Optimize, Fits, Defs, Normalize, S.Eval,
      D.NewFrame;
    var p := Spot(w, env);
    OptimizeCall(fn, args);
    FitsCall(lv, fn, args, Depth(w, env), top);
    FunctorParts(fn);
    var lam, args1 := Functor(fn), OptimizeAll(args);
    var xs, ds := RedexDefs(lam.params, args1), Defs(Optimize(lam.body));
    DefsOfDefines(lam.params, args1, Optimize(lam.body));
    var s1 := D.Eval(fn, env, s, n).s;
    var env1;
    w2, env1 := FunctorRun(lv, w, s, h, env, fn, p, n);
    Later(lv, w, s, h, w2, s1, h, p, [], env);
    assert [] + (xs + ds) == xs + ds;
    ReadyNext(w, s, h, w2, s1, h, p, [], xs + ds);
  }

  lemma {:induction false} SettlesRedex(lv: Levels, w: World, s: D.Store, h: S.Store, env: nat, fn: Core,
                                        args: seq<Core>, top: bool, m: nat)
    returns (n: nat)
    requires CanRun(lv, w, s, h, env, CCall(fn, args), top) && Fires(Optimize(fn), args)
    requires !S.Eval(Normalize(Optimize(CCall(fn, args))), Home(w, env), h, m).Timeout?
    ensures !D.Eval(CCall(fn, args), env, s, n).Timeout?
    decreases m, Size(CCall(fn, args)) - 1, 4
  {
    hide CanRun, Rel, ValRel, Grow, Ready, Used, Has, ValueAt, Ends, Home, Depth, Spot, Optimize, Fits, Defs, Normalize,
      S.Eval, D.NewFrame, D.Eval;
    FunctorParts(fn);
    n := Size(fn);
    FunctorEnds(fn, env, s, n);
    var o, lam := D.Eval(fn, env, s, n), Functor(fn);
    var w2 := RedexArgsReady(lv, w, s, h, env, fn, args, top, n);
    var k := SettlesRedexArgs(lv, w2, o.s, h, env, lam.params, args, Optimize(lam.body),
                              Defs(Optimize(lam.body)), top, m);
    var os := D.EvalArgs(args, env, o.s, k);
    var j := 0;
    if os.ArgsOk? {
      var i := Max(n, k);
      Fuel.DirectMore(fn, env, s, n, i);
      Fuel.DirectArgsMore(args, env, o.s, k, i);
      var w4, h3, env1 := RedexEnter(lv, w, s, h, env, fn, args, top, i, m);
      j := Settles(lv, w4, RedexStore(fn, os.vs, os.s, env1), h3, |os.s.frames|, lam.body, false, m);
      j := j + 1;
      BodyEnds(lam, env1, os.vs, os.s, j);
    }
    CallEnds(fn, args, env, s, n, k, j);
    n := Max(Max(n, k), j);
  }

  lemma BodyEnds(lam: Core, env: nat, vs: seq<D.DVal>, s: D.Store, j: nat)
    requires lam.CLambda? && S.ArityOk(|lam.params|, lam.rest.Some?, |vs|) && j > 0
    requires !D.Eval(lam.body, |s.frames|, s.(frames := s.frames + [D.NewFrame(lam, env, vs)]), j - 1).Timeout?
    ensures !D.ApplyProc(Proc(D.Closure(lam, env)), vs, s, j).Timeout?
  {
    hide D.NewFrame, D.Eval;
  }

  // ---------- errors ----------

  /** An error, other than the use of a local variable and the assignment to a global one without a value. */
  predicate Bad(lv: Levels, h: S.Store, o: D.Outcome) {
    o.Error? || (o.Unbound? && o.x !in lv && (o.write ==> o.x !in h.globals))
  }

  predicate BadArgs(lv: Levels, h: S.Store, o: D.ArgsOutcome) {
    o.ArgsError? || (o.ArgsUnbound? && o.x !in lv && (o.write ==> o.x !in h.globals))
  }

  /** Errors of direct evaluation are errors of the optimized form. */
  lemma {:induction false} Faults(lv: Levels, w: World, s: D.Store, h: S.Store, env: nat, e: Core,
                                  top: bool, n: nat, m: nat)
    requires CanRun(lv, w, s, h, env, e, top) && n <= m && Bad(lv, h, D.Eval(e, env, s, n))
    ensures S.Eval(Normalize(Optimize(e)), Home(w, env), h, m) == S.Error
    decreases n, Size(e), 0
  {
    hide Rel, ValRel, Grow, Ready, Used, Has, ValueAt, Ends, Home, Depth, Spot, D.Lookup, S.Lookup, D.Update, S.Update,
      D.ApplyProc, S.ApplyProc;
    match e
    case CVar(x) => NoValue(lv, w, s, h, env, x);
    case CSet(x, e1) =>
      if D.Eval(e1, env, s, n).Ok? {
        assert Defs(Optimize(e1)) + [] == Defs(Optimize(e1));
        var w1, h1, y := Part(lv, w, s, h, env, e1, top, [], n, m);
        Fuel.SameGlobals(Normalize(Optimize(e1)), Home(w, env), h, m, x);
        NoVariable(lv, w1, D.Eval(e1, env, s, n).s, h1, env, x, y);
      } else {
        Faults(lv, w, s, h, env, e1, top, n, m);
      }
    case CDefine(x, e1) =>
      DefinePart(w, s, h, Spot(w, env), x, e1);
      Faults(lv, w, s, h, env, e1, top, n, m);
    case CIf(c, t, f) => FaultsIf(lv, w, s, h, env, c, t, f, top, n, m);
    case CBegin(a, b) =>
      ReadyParts(w, s, h, Spot(w, env), Defs(Optimize(a)), Defs(Optimize(b)));
      var o := D.Eval(a, env, s, n);
      if o.Ok? {
        var w1, h1, y := Part(lv, w, s, h, env, a, top, Defs(Optimize(b)), n, m);
        StillBad(lv, Normalize(Optimize(a)), Home(w, env), h, m, h1, D.Eval(b, env, o.s, n));
        Faults(lv, w1, o.s, h1, env, b, top, n, m);
      } else {
        Faults(lv, w, s, h, env, a, top, n, m);
      }
    case CCall(fn, args) =>
      if Fires(Optimize(fn), args) {
        FaultsRedex(lv, w, s, h, env, fn, args, top, n, m);
      } else {
        FaultsCall(lv, w, s, h, env, fn, args, top, n, m);
      }
    case _ =>
  }

  /** A global variable without a value. */
  lemma NoValue(lv: Levels, w: World, s: D.Store, h: S.Store, env: nat, x: Name)
    requires Rel(lv, w, s, h) && x !in lv && D.Lookup(s, env, x) == None
    ensures S.Lookup(h, Home(w, env), x) == None
  {
    hide S.FindFrame;
    RelNotShared(lv, w, s, h);
    FindNone(lv, w, s, h, Home(w, env), x);
    hide Rel, D.Find;
    assert ValueAt(h, None, x) == None;
  }

  /** A variable that is neither local anywhere nor global. */
  lemma NoVariable(lv: Levels, w: World, s: D.Store, h: S.Store, env: nat, x: Name, y: S.SVal)
    requires Rel(lv, w, s, h) && x !in lv && x !in h.globals
    ensures S.Lookup(h, Home(w, env), x) == None && S.Update(h, Home(w, env), x, y) == None
  {
    hide Rel, S.FindFrame;
    FindNone(lv, w, s, h, Home(w, env), x);
  }

  lemma StillBad(lv: Levels, e: Expr, f: nat, h: S.Store, m: nat, h1: S.Store, o: D.Outcome)
    requires S.Eval(e, f, h, m).Ok? && S.Eval(e, f, h, m).s == h1 && Bad(lv, h, o)
    ensures Bad(lv, h1, o)
  {
    hide S.Eval;
    if o.Unbound? { Fuel.SameGlobals(e, f, h, m, o.x); }
  }

  lemma {:induction false} FaultsIf(lv: Levels, w: World, s: D.Store, h: S.Store, env: nat, c: Core, t: Core, f: Core,
                                    top: bool, n: nat, m: nat)
    requires CanRun(lv, w, s, h, env, CIf(c, t, f), top) && n <= m && Bad(lv, h, D.Eval(CIf(c, t, f), env, s, n))
    ensures S.Eval(Normalize(Optimize(CIf(c, t, f))), Home(w, env), h, m) == S.Error
    decreases n, Size(CIf(c, t, f)) - 1, 3
  {
    hide Rel, ValRel, Grow, Ready, Used, Has, ValueAt, Ends, Home, Depth, Spot, D.Lookup, S.Lookup, D.Update, S.Update,
      D.ApplyProc, S.ApplyProc;
    var ds := Defs(Optimize(t)) + Defs(Optimize(f));
    assert Defs(Optimize(CIf(c, t, f))) == Defs(Optimize(c)) + ds;
    ReadyParts(w, s, h, Spot(w, env), Defs(Optimize(c)), ds);
    var o := D.Eval(c, env, s, n);
    if o.Ok? {
      var w1, h1, y := Part(lv, w, s, h, env, c, top, ds, n, m);
      FalseRel(lv, w1, o.v, y);
      var b := if o.v == Bool(false) then f else t;
      EitherPart(w1, o.s, h1, Spot(w, env), t, f, b);
      StillBad(lv, Normalize(Optimize(c)), Home(w, env), h, m, h1, D.Eval(b, env, o.s, n));
      Faults(lv, w1, o.s, h1, env, b, top, n, m);
    } else {
      Faults(lv, w, s, h, env, c, top, n, m);
    }
  }

  lemma {:induction false} FaultsArgs(lv: Levels, w: World, s: D.Store, h: S.Store, env: nat, es: seq<Core>, top: bool,
                                      n: nat, m: nat)
    requires Rel(lv, w, s, h) && env < |s.frames| && top == (s.frames[env].up == None)
    requires FitsAll(lv, es, Depth(w, env), top) && Ready(w, s, h, Spot(w, env), DefsAll(OptimizeAll(es)))
    requires n <= m && BadArgs(lv, h, D.EvalArgs(es, env, s, n))
    ensures S.EvalArgs(NormalizeAll(OptimizeAll(es)), Home(w, env), h, m) == S.ArgsError
    decreases n, SizeAll(es), 1
  {
    hide Rel, ValRel, Grow, Ready, Used, Has, ValueAt, Ends, Home, Depth, Spot, D.Lookup, S.Lookup, D.Update, S.Update,
      D.ApplyProc, S.ApplyProc;
    var es1 := OptimizeAll(es);
    assert es1[1..] == OptimizeAll(es[1..]) && DefsAll(es1) == Defs(es1[0]) + DefsAll(es1[1..]);
    assert NormalizeAll(es1)[1..] == NormalizeAll(es1[1..]);
    ReadyParts(w, s, h, Spot(w, env), Defs(es1[0]), DefsAll(es1[1..]));
    var o := D.Eval(es[0], env, s, n);
    if o.Ok? {
      var w1, h1, y := Part(lv, w, s, h, env, es[0], top, DefsAll(es1[1..]), n, m);
      var os := D.EvalArgs(es[1..], env, o.s, n);
      if os.ArgsUnbound? { Fuel.SameGlobals(Normalize(es1[0]), Home(w, env), h, m, os.x); }
      FaultsArgs(lv, w1, o.s, h1, env, es[1..], top, n, m);
    } else {
      Faults(lv, w, s, h, env, es[0], top, n, m);
    }
  }

  lemma {:induction false} FaultsCall(lv: Levels, w: World, s: D.Store, h: S.Store, env: nat, fn: Core, args: seq<Core>,
                                      top: bool, n: nat, m: nat)
    requires CanRun(lv, w, s, h, env, CCall(fn, args), top) && !Fires(Optimize(fn), args)
    requires n <= m && Bad(lv, h, D.Eval(CCall(fn, args), env, s, n))
    ensures S.Eval(Normalize(Optimize(CCall(fn, args))), Home(w, env), h, m) == S.Error
    decreases n, Size(CCall(fn, args)) - 1, 3
  {
    hide Rel, ValRel, Grow, Ready, Used, Has, ValueAt, Ends, Home, Depth, Spot, D.ApplyProc, S.ApplyProc, Optimize,
      Fits;
    OptimizeCall(fn, args);
    FitsCall(lv, fn, args, Depth(w, env), top);
    var fn1, args1 := Optimize(fn), OptimizeAll(args);
    ReadyParts(w, s, h, Spot(w, env), Defs(fn1), DefsAll(args1));
    var o := D.Eval(fn, env, s, n);
    if o.Ok? {
      var w1, h1, y := Part(lv, w, s, h, env, fn, top, DefsAll(args1), n, m);
      var os := D.EvalArgs(args, env, o.s, n);
      if os.ArgsOk? {
        var w2, h2, ys := Parts(lv, w1, o.s, h1, env, args, top, n, m);
        ValRelExt(lv, w1, w2, o.v, y);
        var r := D.ApplyProc(o.v, os.vs, os.s, n);
        if r.Unbound? {
          Fuel.SameGlobals(Normalize(fn1), Home(w, env), h, m, r.x);
          Fuel.SameGlobalsArgs(NormalizeAll(args1), Home(w, env), h1, m, r.x);
        }
        FaultsApply(lv, w2, os.s, h2, o.v, y, os.vs, ys, n, m);
      } else {
        if os.ArgsUnbound? { Fuel.SameGlobals(Normalize(fn1), Home(w, env), h, m, os.x); }
        FaultsArgs(lv, w1, o.s, h1, env, args, top, n, m);
      }
    } else {
      Faults(lv, w, s, h, env, fn, top, n, m);
    }
  }

  lemma NotProc(lv: Levels, w: World, v: D.DVal, y: S.SVal)
    requires ValRel(lv, w, v, y)
    ensures v.Builtin? == y.Builtin? && v.Proc? == y.Proc?
  {
    hide Fits;
  }

  lemma {:induction false} FaultsApply(lv: Levels, w: World, s: D.Store, h: S.Store, v: D.DVal, y: S.SVal,
                                       vs: seq<D.DVal>, ys: seq<S.SVal>, n: nat, m: nat)
    requires Rel(lv, w, s, h) && ValRel(lv, w, v, y) && ValsRel(lv, w, vs, ys)
    requires n <= m && Bad(lv, h, D.ApplyProc(v, vs, s, n))
    ensures S.ApplyProc(y, ys, h, m) == S.Error
    decreases n, 0, 0
  {
    hide Rel, ValRel, Grow, Ready, Used, Has, ValueAt, Ends, Depth, Spot, Optimize, Fits, Builtins.Apply, D.NewFrame,
      S.NewFrame;
    ProcRel(lv, w, v, y);
    NotProc(lv, w, v, y);
    if v.Builtin? {
      ApplyRel(lv, w, v.p, vs, ys);
    } else if v.Proc? {
      var lam, env := v.closure.lam, v.closure.env;
      RelSizes(lv, w, s, h);
      OptimizeLambda(lam);
      if S.ArityOk(|lam.params|, lam.rest.Some?, |vs|) {
        ApplyEnter(lv, w, s, h, lam, env, vs, ys, None);
        var g, w0 := |s.frames|, FreshWorld(w, h, env);
        var s0, h0 := s.(frames := s.frames + [D.NewFrame(lam, env, vs)]),
          h.(frames := h.frames + [FreshFrame(w, lam, env, ys)]);
        assert S.ApplyProc(y, ys, h, m) == S.Eval(Normalize(Optimize(lam.body)), |h.frames|, h0, m - 1);
        Faults(lv, w0, s0, h0, g, lam.body, false, n - 1, m - 1);
      }
    }
  }

  lemma {:induction false} FaultsRedexArgs(lv: Levels, w: World, s: D.Store, h: S.Store, env: nat, params: seq<Name>,
                                           args: seq<Core>, body: Core, ds: seq<Name>, top: bool, n: nat, m: nat)
    requires Rel(lv, w, s, h) && env < |s.frames| && top == (s.frames[env].up == None) && |params| == |args|
    requires FitsAll(lv, args, Depth(w, env), top) && AllAt(lv, params, Depth(w, env))
    requires Ready(w, s, h, Spot(w, env), RedexDefs(params, OptimizeAll(args)) + ds)
    requires n <= m && BadArgs(lv, h, D.EvalArgs(args, env, s, n))
    ensures S.Eval(Normalize(Defines(params, OptimizeAll(args), body)), Home(w, env), h, m) == S.Error
    decreases n, SizeAll(args), 3
  {
    hide Rel, ValRel, Grow, Ready, Used, Has, ValueAt, Ends, Home, Depth, Spot, S.Update, Assigned, Normalize, S.Eval;
    var args1 := OptimizeAll(args);
    assert RedexDefs(params, args1) + ds == [params[0]] + Defs(args1[0]) + RestDefs(params, args1, ds);
    ReadyFirst(w, s, h, Spot(w, env), params[0], Defs(args1[0]), RestDefs(params, args1, ds));
    ReadyParts(w, s, h, Spot(w, env), Defs(args1[0]), [params[0]] + RestDefs(params, args1, ds));
    var o := D.Eval(args[0], env, s, n);
    if o.Ok? {
      var w1, h2, y := SimFirst(lv, w, s, h, env, params, args, body, ds, top, n, m);
      var os := D.EvalArgs(args[1..], env, o.s, n);
      FaultsRedexArgs(lv, w1, o.s, h2, env, params[1..], args[1..], body, ds, top, n, m);
    } else {
      Faults(lv, w, s, h, env, args[0], top, n, m);
      DefinesFail(params, args1, body, Home(w, env), h, m);
    }
  }

  lemma DefinesFail(params: seq<Name>, args: seq<Core>, body: Core, f: nat, h: S.Store, m: nat)
    requires |params| == |args| > 0 && S.Eval(Normalize(args[0]), f, h, m) == S.Error
    ensures S.Eval(Normalize(Defines(params, args, body)), f, h, m) == S.Error
  {
    hide S.Update;
    var rest := Defines(params[1..], args[1..], body);
    assert Defines(params, args, body) == CBegin(CDefine(params[0], args[0]), rest);
    assert Normalize(CBegin(CDefine(params[0], args[0]), rest))
      == Begin(Set(params[0], Normalize(args[0])), Normalize(rest));
  }

  lemma {:induction false} FaultsRedex(lv: Levels, w: World, s: D.Store, h: S.Store, env: nat, fn: Core,
                                       args: seq<Core>, top: bool, n: nat, m: nat)
    requires CanRun(lv, w, s, h, env, CCall(fn, args), top) && Fires(Optimize(fn), args)
    requires n <= m && Bad(lv, h, D.Eval(CCall(fn, args), env, s, n))
    ensures S.Eval(Normalize(Optimize(CCall(fn, args))), Home(w, env), h, m) == S.Error
    decreases n, Size(CCall(fn, args)) - 1, 4
  {
    hide CanRun, Rel, ValRel, Grow, Ready, Used, Has, ValueAt, Ends, Home, Depth, Spot, Optimize, Fits, Defs, Normalize,
      S.Eval, D.NewFrame;
    FunctorParts(fn);
    FunctorFails(fn, env, s, n);
    var o, lam := D.Eval(fn, env, s, n), Functor(fn);
    var os := D.EvalArgs(args, env, o.s, n);
    if os.ArgsOk? {
      var w4, h3, env1 := RedexEnter(lv, w, s, h, env, fn, args, top, n, m);
      Faults(lv, w4, RedexStore(fn, os.vs, os.s, env1), h3, |os.s.frames|, lam.body, false, n - 1, m);
    } else {
      var w2 := RedexArgsReady(lv, w, s, h, env, fn, args, top, n);
      FaultsRedexArgs(lv, w2, o.s, h, env, lam.params, args, Optimize(lam.body), Defs(Optimize(lam.body)), top, n, m);
    }
  }
}
