/** `optimize_beta` followed by `normalize` preserves meaning. */
module BetaNormalize {
  import opened Util
  import opened Syntax
  import opened CoreForms
  import opened Merging
  import opened Sharing
  import opened Frames
  import Builtins
  import Fuel
  import S = Source
  import D = Direct

  // ---------- composing runs ----------

  /** After code that defines `xs` in place `p` has run. */
  ghost predicate Ends(lv: Levels, w: World, s: D.Store, h: S.Store, p: Option<nat>, xs: seq<Name>,
                       v: D.DVal, s1: D.Store, w1: World, h1: S.Store, y: S.SVal) {
    Rel(lv, w1, s1, h1) && ValRel(lv, w1, v, y) && Grow(w, s, h, w1, s1, h1, p, xs)
  }

  /** A frame and its home outlive the running of code. */
  lemma Later(lv: Levels, w: World, s: D.Store, h: S.Store, w1: World, s1: D.Store, h1: S.Store, p: Option<nat>,
              xs: seq<Name>, env: nat)
    requires Rel(lv, w, s, h) && Rel(lv, w1, s1, h1) && Grow(w, s, h, w1, s1, h1, p, xs) && env < |s.frames|
    ensures env < |s1.frames| && s1.frames[env].up == s.frames[env].up
    ensures Home(w1, env) == Home(w, env) && Depth(w1, env) == Depth(w, env) && Spot(w1, env) == Spot(w, env)
    ensures Ext(w, w1)
  {
    hide VarOk, GlobalOk, TargetOk, NotShared, Used, Has, ValueAt;
    RelFrame(lv, w, s, h, env);
  }

  lemma GrowMore(w: World, s: D.Store, h: S.Store, w1: World, s1: D.Store, h1: S.Store, p: Option<nat>, xs: seq<Name>,
                 ys: seq<Name>)
    requires Grow(w, s, h, w1, s1, h1, p, xs) && forall x :: x in xs ==> x in ys
    ensures Grow(w, s, h, w1, s1, h1, p, ys)
  {
    hide Used, Has, ValueAt;
  }

  /** What happens in a new frame does not matter outside. */
  lemma GrowInner(w: World, s: D.Store, h: S.Store, w1: World, s1: D.Store, h1: S.Store, w2: World,
                  s2: D.Store, h2: S.Store, p: Option<nat>, t: nat, xs: seq<Name>)
    requires Grow(w, s, h, w1, s1, h1, p, []) && Grow(w1, s1, h1, w2, s2, h2, Some(t), xs) && t >= |h.frames|
    ensures Grow(w, s, h, w2, s2, h2, p, [])
  {
    assert forall x :: !Has(h, Some(t), x);
    hide Used, Has, ValueAt;
  }

  lemma CellStays(w: World, s: D.Store, h: S.Store, w1: World, s1: D.Store, h1: S.Store, p: Option<nat>,
                  xs: seq<Name>, x: Name)
    requires Grow(w, s, h, w1, s1, h1, p, xs) && Has(h, p, x) && !Used(w, s, p, x) && x !in xs
    ensures Has(h1, p, x) && !Used(w1, s1, p, x) && ValueAt(h1, p, x) == ValueAt(h, p, x)
  {
    hide Used, Has, ValueAt;
  }

  lemma ReadyFirst(w: World, s: D.Store, h: S.Store, p: Option<nat>, x: Name, xs: seq<Name>, ys: seq<Name>)
    requires Ready(w, s, h, p, [x] + xs + ys)
    ensures Ready(w, s, h, p, xs + ([x] + ys))
    ensures Has(h, p, x) && !Used(w, s, p, x) && x !in xs && x !in ys
  {
    hide Used, Has;
    var zs := [x] + xs + ys;
    assert zs[0] == x;
    forall i | 0 <= i < |xs| ensures zs[1 + i] == xs[i] {}
    forall j | 0 <= j < |ys| ensures zs[1 + |xs| + j] == ys[j] {}
  }

  // ---------- the parts of a form ----------

  lemma FitsCall(lv: Levels, fn: Core, args: seq<Core>, d: nat, top: bool)
    requires Fits(lv, CCall(fn, args), d, top)
    ensures FitsAll(lv, args, d, top)
    ensures if Fires(Optimize(fn), args) then AllAt(lv, Functor(fn).params, d) && Fits(lv, Functor(fn).body, d, false)
            else Fits(lv, fn, d, top)
  {
  }

  lemma EndsParts(lv: Levels, w: World, s: D.Store, h: S.Store, p: Option<nat>, xs: seq<Name>,
                  v: D.DVal, s1: D.Store, w1: World, h1: S.Store, y: S.SVal)
    requires Ends(lv, w, s, h, p, xs, v, s1, w1, h1, y)
    ensures Rel(lv, w1, s1, h1) && ValRel(lv, w1, v, y) && Grow(w, s, h, w1, s1, h1, p, xs) && Ext(w, w1)
  {
    hide Rel, ValRel, Used, Has, ValueAt;
  }

  /** The next part of a form can run where the first one did. */
  lemma Onward(lv: Levels, w: World, s: D.Store, h: S.Store, env: nat, xs: seq<Name>, ys: seq<Name>,
               v: D.DVal, s1: D.Store, w1: World, h1: S.Store, y: S.SVal)
    requires Rel(lv, w, s, h) && env < |s.frames| && Ready(w, s, h, Spot(w, env), xs + ys)
    requires Ends(lv, w, s, h, Spot(w, env), xs, v, s1, w1, h1, y)
    ensures env < |s1.frames| && s1.frames[env].up == s.frames[env].up
    ensures Home(w1, env) == Home(w, env) && Depth(w1, env) == Depth(w, env) && Spot(w1, env) == Spot(w, env)
    ensures Rel(lv, w1, s1, h1) && ValRel(lv, w1, v, y) && Grow(w, s, h, w1, s1, h1, Spot(w, env), xs) && Ext(w, w1)
    ensures Ready(w1, s1, h1, Spot(w, env), ys)
  {
    hide *;
    EndsParts(lv, w, s, h, Spot(w, env), xs, v, s1, w1, h1, y);
    Later(lv, w, s, h, w1, s1, h1, Spot(w, env), xs, env);
    ReadyNext(w, s, h, w1, s1, h1, Spot(w, env), xs, ys);
  }

  /** Two runs in a row. */
  lemma Together(lv: Levels, w: World, s: D.Store, h: S.Store, p: Option<nat>, xs: seq<Name>, w1: World,
                 s1: D.Store, h1: S.Store, ys: seq<Name>, v: D.DVal, s2: D.Store, w2: World, h2: S.Store, y: S.SVal)
    requires Grow(w, s, h, w1, s1, h1, p, xs) && Ends(lv, w1, s1, h1, p, ys, v, s2, w2, h2, y)
    ensures Ends(lv, w, s, h, p, xs + ys, v, s2, w2, h2, y)
  {
    hide Rel, ValRel, Grow;
    GrowTrans(w, s, h, w1, s1, h1, w2, s2, h2, p, xs, ys);
  }

  lemma ReadyParts(w: World, s: D.Store, h: S.Store, p: Option<nat>, xs: seq<Name>, ys: seq<Name>)
    requires Ready(w, s, h, p, xs + ys)
    ensures Ready(w, s, h, p, xs) && Ready(w, s, h, p, ys)
  {
    GrowRefl(w, s, h, p);
    hide Used, Has;
    PrefixNoDup(xs, ys);
  }

  // ---------- the simulation ----------

  /** Code that may run: it fits its depth, and the cells of its definitions are unused. */
  ghost predicate CanRun(lv: Levels, w: World, s: D.Store, h: S.Store, env: nat, e: Core, top: bool) {
    && Rel(lv, w, s, h) && env < |s.frames| && top == (s.frames[env].up == None)
    && Fits(lv, e, Depth(w, env), top) && Ready(w, s, h, Spot(w, env), Defs(Optimize(e)))
  }

  /** Whenever direct evaluation gives a value, so does evaluation of the optimized and normalized
      form, and what they leave behind is related. */
  lemma {:induction false} Sim(lv: Levels, w: World, s: D.Store, h: S.Store, env: nat, e: Core,
                               top: bool, n: nat, m: nat)
    returns (w1: World, h1: S.Store, y: S.SVal)
    requires CanRun(lv, w, s, h, env, e, top) && n <= m && D.Eval(e, env, s, n).Ok?
    ensures S.Eval(Normalize(Optimize(e)), Home(w, env), h, m) == S.Ok(y, h1)
    ensures Ends(lv, w, s, h, Spot(w, env), Defs(Optimize(e)), D.Eval(e, env, s, n).v,
                 D.Eval(e, env, s, n).s, w1, h1, y)
    decreases n, Size(e), 0
  {
    hide Rel, ValRel, Grow, Ready, Used, Has, ValueAt, Ends, Home, Depth, Spot, D.Lookup, S.Lookup, D.Update, S.Update,
      D.ApplyProc, S.ApplyProc;
    var p := Spot(w, env);
    match e
    case CQuote(d) =>
      w1, h1, y := w, h, Inject(d);
      InjectRel(lv, w, d);
      EndsNow(lv, w, s, h, p, Inject(d), y);
    case CVar(x) =>
      LookupRel(lv, w, s, h, env, x);
      w1, h1, y := w, h, S.Lookup(h, Home(w, env), x).value;
      EndsNow(lv, w, s, h, p, D.Lookup(s, env, x).value, y);
    case CLambda(_, _, _) =>
      w1, h1, y := w, h, Proc(S.Closure(Normalize(Optimize(e)), Home(w, env)));
      ClosureRel(lv, w, s, h, env, e, top);
      EndsNow(lv, w, s, h, p, Proc(D.Closure(e, env)), y);
    case CSet(x, e1) =>
      w1, h1, y := Sim(lv, w, s, h, env, e1, top, n, m);
      var Ok(v, s1) := D.Eval(e1, env, s, n);
      assert Defs(Optimize(e1)) + [] == Defs(Optimize(e1));
      Onward(lv, w, s, h, env, Defs(Optimize(e1)), [], v, s1, w1, h1, y);
      var h2 := UpdateRel(lv, w1, s1, h1, env, x, v, y);
      UndefEnds(lv, w, s, h, p, Defs(Optimize(e1)), w1, s1, h1, [], D.Update(s1, env, x, v).value, h2);
      h1, y := h2, Undef;
    case CDefine(x, e1) =>
      assert [x] + Defs(Optimize(e1)) + [] == Defs(Optimize(e));
      ReadyFirst(w, s, h, p, x, Defs(Optimize(e1)), []);
      assert Defs(Optimize(e1)) + ([x] + []) == Defs(Optimize(e1)) + [x];
      ReadyParts(w, s, h, p, Defs(Optimize(e1)), [x]);
      w1, h1, y := Sim(lv, w, s, h, env, e1, top, n, m);
      var Ok(v, s1) := D.Eval(e1, env, s, n);
      Onward(lv, w, s, h, env, Defs(Optimize(e1)), [x], v, s1, w1, h1, y);
      ReadyOne(w1, s1, h1, p, x);
      var h2 := BindRel(lv, w1, s1, h1, env, x, v, y);
      UndefEnds(lv, w, s, h, p, Defs(Optimize(e1)), w1, s1, h1, [x], D.Bind(s1, env, x, v), h2);
      EndsMore(lv, w, s, h, p, Defs(Optimize(e1)) + [x], Undef, D.Bind(s1, env, x, v), w1, h2, Undef,
               Defs(Optimize(e)));
      h1, y := h2, Undef;
    case CIf(c, t, f) =>
      w1, h1, y := SimIf(lv, w, s, h, env, c, t, f, top, n, m);
    case CBegin(a, b) =>
      ReadyParts(w, s, h, p, Defs(Optimize(a)), Defs(Optimize(b)));
      w1, h1, y := Sim(lv, w, s, h, env, a, top, n, m);
      var Ok(v, s1) := D.Eval(a, env, s, n);
      Onward(lv, w, s, h, env, Defs(Optimize(a)), Defs(Optimize(b)), v, s1, w1, h1, y);
      var w2, h2, z := Sim(lv, w1, s1, h1, env, b, top, n, m);
      var Ok(v2, s2) := D.Eval(b, env, s1, n);
      Together(lv, w, s, h, p, Defs(Optimize(a)), w1, s1, h1, Defs(Optimize(b)), v2, s2, w2, h2, z);
      w1, h1, y := w2, h2, z;
    case CCall(fn, args) =>
      if Fires(Optimize(fn), args) {
        w1, h1, y := SimRedex(lv, w, s, h, env, fn, args, top, n, m);
      } else {
        w1, h1, y := SimCall(lv, w, s, h, env, fn, args, top, n, m);
      }
  }

  lemma EndsNow(lv: Levels, w: World, s: D.Store, h: S.Store, p: Option<nat>, v: D.DVal, y: S.SVal)
    requires Rel(lv, w, s, h) && ValRel(lv, w, v, y)
    ensures Ends(lv, w, s, h, p, [], v, s, w, h, y)
  {
    GrowRefl(w, s, h, p);
  }

  lemma ReadyOne(w: World, s: D.Store, h: S.Store, p: Option<nat>, x: Name)
    requires Ready(w, s, h, p, [x])
    ensures Has(h, p, x) && !Used(w, s, p, x)
  {
    assert x in [x];
  }

  lemma UndefEnds(lv: Levels, w: World, s: D.Store, h: S.Store, p: Option<nat>, xs: seq<Name>, w1: World,
                  s1: D.Store, h1: S.Store, ys: seq<Name>, s2: D.Store, h2: S.Store)
    requires Grow(w, s, h, w1, s1, h1, p, xs) && Rel(lv, w1, s2, h2) && Grow(w1, s1, h1, w1, s2, h2, p, ys)
    ensures Ends(lv, w, s, h, p, xs + ys, Undef, s2, w1, h2, Undef)
    ensures ys == [] ==> Ends(lv, w, s, h, p, xs, Undef, s2, w1, h2, Undef)
  {
    hide Rel, Grow;
    GrowTrans(w, s, h, w1, s1, h1, w1, s2, h2, p, xs, ys);
    if ys == [] { assert xs + ys == xs; }
  }

  lemma EndsMore(lv: Levels, w: World, s: D.Store, h: S.Store, p: Option<nat>, xs: seq<Name>,
                 v: D.DVal, s1: D.Store, w1: World, h1: S.Store, y: S.SVal, ys: seq<Name>)
    requires Ends(lv, w, s, h, p, xs, v, s1, w1, h1, y) && forall x :: x in xs ==> x in ys
    ensures Ends(lv, w, s, h, p, ys, v, s1, w1, h1, y)
  {
    hide Rel, ValRel, Grow;
    GrowMore(w, s, h, w1, s1, h1, p, xs, ys);
  }

  lemma ClosureRel(lv: Levels, w: World, s: D.Store, h: S.Store, env: nat, e: Core, top: bool)
    requires Rel(lv, w, s, h) && env < |s.frames| && e.CLambda? && Fits(lv, e, Depth(w, env), top)
    ensures ValRel(lv, w, Proc(D.Closure(e, env)), Proc(S.Closure(Normalize(Optimize(e)), Home(w, env))))
  {
    RelFrame(lv, w, s, h, env);
    hide Rel;
  }

  lemma FalseRel(lv: Levels, w: World, v: D.DVal, y: S.SVal)
    requires ValRel(lv, w, v, y)
    ensures v == Bool(false) <==> y == Bool(false)
  {
    hide Fits;
  }

  lemma {:induction false} SimIf(lv: Levels, w: World, s: D.Store, h: S.Store, env: nat, c: Core, t: Core, f: Core,
                                 top: bool, n: nat, m: nat)
    returns (w1: World, h1: S.Store, y: S.SVal)
    requires CanRun(lv, w, s, h, env, CIf(c, t, f), top) && n <= m && D.Eval(CIf(c, t, f), env, s, n).Ok?
    ensures S.Eval(Normalize(Optimize(CIf(c, t, f))), Home(w, env), h, m) == S.Ok(y, h1)
    ensures Ends(lv, w, s, h, Spot(w, env), Defs(Optimize(CIf(c, t, f))),
                 D.Eval(CIf(c, t, f), env, s, n).v, D.Eval(CIf(c, t, f), env, s, n).s, w1, h1, y)
    decreases n, Size(CIf(c, t, f)) - 1, 3
  {
    hide Rel, ValRel, Grow, Ready, Used, Has, ValueAt, Ends, Home, Depth, Spot, D.Lookup, S.Lookup, D.Update, S.Update,
      D.ApplyProc, S.ApplyProc;
    var p := Spot(w, env);
    var ds := Defs(Optimize(t)) + Defs(Optimize(f));
    assert Defs(Optimize(CIf(c, t, f))) == Defs(Optimize(c)) + ds;
    ReadyParts(w, s, h, p, Defs(Optimize(c)), ds);
    w1, h1, y := Sim(lv, w, s, h, env, c, top, n, m);
    var Ok(v, s1) := D.Eval(c, env, s, n);
    Onward(lv, w, s, h, env, Defs(Optimize(c)), ds, v, s1, w1, h1, y);
    ReadyParts(w1, s1, h1, p, Defs(Optimize(t)), Defs(Optimize(f)));
    FalseRel(lv, w1, v, y);
    var b := if v == Bool(false) then f else t;
    var w2, h2, z := Sim(lv, w1, s1, h1, env, b, top, n, m);
    var Ok(v2, s2) := D.Eval(b, env, s1, n);
    EndsMore(lv, w1, s1, h1, p, Defs(Optimize(b)), v2, s2, w2, h2, z, ds);
    Together(lv, w, s, h, p, Defs(Optimize(c)), w1, s1, h1, ds, v2, s2, w2, h2, z);
    w1, h1, y := w2, h2, z;
  }

  lemma {:induction false} SimArgs(lv: Levels, w: World, s: D.Store, h: S.Store, env: nat, es: seq<Core>, top: bool,
                                   n: nat, m: nat)
    returns (w1: World, h1: S.Store, ys: seq<S.SVal>)
    requires Rel(lv, w, s, h) && env < |s.frames| && top == (s.frames[env].up == None)
    requires FitsAll(lv, es, Depth(w, env), top) && Ready(w, s, h, Spot(w, env), DefsAll(OptimizeAll(es)))
    requires n <= m && D.EvalArgs(es, env, s, n).ArgsOk?
    ensures S.EvalArgs(NormalizeAll(OptimizeAll(es)), Home(w, env), h, m) == S.ArgsOk(ys, h1)
    ensures Rel(lv, w1, D.EvalArgs(es, env, s, n).s, h1) && ValsRel(lv, w1, D.EvalArgs(es, env, s, n).vs, ys)
    ensures Grow(w, s, h, w1, D.EvalArgs(es, env, s, n).s, h1, Spot(w, env), DefsAll(OptimizeAll(es)))
    decreases n, SizeAll(es), 1
  {
    hide Rel, ValRel, Grow, Ready, Used, Has, ValueAt, Ends, Home, Depth, Spot;
    var p := Spot(w, env);
    if es == [] {
      w1, h1, ys := w, h, [];
      GrowRefl(w, s, h, p);
    } else {
      var es1 := OptimizeAll(es);
      assert es1[1..] == OptimizeAll(es[1..]) && DefsAll(es1) == Defs(es1[0]) + DefsAll(es1[1..]);
      ReadyParts(w, s, h, p, Defs(es1[0]), DefsAll(es1[1..]));
      var y;
      w1, h1, y := Sim(lv, w, s, h, env, es[0], top, n, m);
      var Ok(v, s1) := D.Eval(es[0], env, s, n);
      Onward(lv, w, s, h, env, Defs(es1[0]), DefsAll(es1[1..]), v, s1, w1, h1, y);
      var w2, h2, zs := SimArgs(lv, w1, s1, h1, env, es[1..], top, n, m);
      var ArgsOk(vs, s2) := D.EvalArgs(es[1..], env, s1, n);
      GrowTrans(w, s, h, w1, s1, h1, w2, s2, h2, p, Defs(es1[0]), DefsAll(es1[1..]));
      ConsRel(lv, w1, w2, v, y, vs, zs, s1, h1, s2, h2, p, DefsAll(es1[1..]));
      assert NormalizeAll(es1)[1..] == NormalizeAll(es1[1..]);
      w1, h1, ys := w2, h2, [y] + zs;
    }
  }

  lemma ConsRel(lv: Levels, w: World, w1: World, v: D.DVal, y: S.SVal, vs: seq<D.DVal>, ys: seq<S.SVal>,
                s: D.Store, h: S.Store, s1: D.Store, h1: S.Store, p: Option<nat>, xs: seq<Name>)
    requires ValRel(lv, w, v, y) && ValsRel(lv, w1, vs, ys) && Grow(w, s, h, w1, s1, h1, p, xs)
    ensures ValsRel(lv, w1, [v] + vs, [y] + ys)
  {
    ValRelExt(lv, w, w1, v, y);
    hide ValRel, Used, Has, ValueAt;
  }

  lemma {:induction false} SimCall(lv: Levels, w: World, s: D.Store, h: S.Store, env: nat, fn: Core, args: seq<Core>,
                                   top: bool, n: nat, m: nat)
    returns (w1: World, h1: S.Store, y: S.SVal)
    requires CanRun(lv, w, s, h, env, CCall(fn, args), top) && n <= m && D.Eval(CCall(fn, args), env, s, n).Ok?
    requires !Fires(Optimize(fn), args)
    ensures S.Eval(Normalize(Optimize(CCall(fn, args))), Home(w, env), h, m) == S.Ok(y, h1)
    ensures Ends(lv, w, s, h, Spot(w, env), Defs(Optimize(CCall(fn, args))),
                 D.Eval(CCall(fn, args), env, s, n).v, D.Eval(CCall(fn, args), env, s, n).s, w1, h1, y)
    decreases n, Size(CCall(fn, args)) - 1, 3
  {
    hide Rel, ValRel, Grow, Ready, Used, Has, ValueAt, Ends, Home, Depth, Spot, D.ApplyProc, S.ApplyProc, Optimize,
      Fits;
    var p := Spot(w, env);
    OptimizeCall(fn, args);
    FitsCall(lv, fn, args, Depth(w, env), top);
    var fn1, args1 := Optimize(fn), OptimizeAll(args);
    ReadyParts(w, s, h, p, Defs(fn1), DefsAll(args1));
    w1, h1, y := Sim(lv, w, s, h, env, fn, top, n, m);
    var Ok(v, s1) := D.Eval(fn, env, s, n);
    Onward(lv, w, s, h, env, Defs(fn1), DefsAll(args1), v, s1, w1, h1, y);
    var w2, h2, ys := SimArgs(lv, w1, s1, h1, env, args, top, n, m);
    var ArgsOk(vs, s2) := D.EvalArgs(args, env, s1, n);
    GrowTrans(w, s, h, w1, s1, h1, w2, s2, h2, p, Defs(fn1), DefsAll(args1));
    GrowExt(w1, s1, h1, w2, s2, h2, p, DefsAll(args1));
    ValRelExt(lv, w1, w2, v, y);
    var w3, h3, z := SimApply(lv, w2, s2, h2, v, y, vs, ys, p, n, m);
    var Ok(v3, s3) := D.ApplyProc(v, vs, s2, n);
    Together(lv, w, s, h, p, Defs(fn1) + DefsAll(args1), w2, s2, h2, [], v3, s3, w3, h3, z);
    assert Defs(fn1) + DefsAll(args1) + [] == Defs(CCall(fn1, args1));
    w1, h1, y := w3, h3, z;
  }

  lemma GrowExt(w: World, s: D.Store, h: S.Store, w1: World, s1: D.Store, h1: S.Store, p: Option<nat>, xs: seq<Name>)
    requires Grow(w, s, h, w1, s1, h1, p, xs)
    ensures Ext(w, w1)
  {
    hide Used, Has, ValueAt;
  }

  lemma ProcRel(lv: Levels, w: World, v: D.DVal, y: S.SVal)
    requires ValRel(lv, w, v, y)
    ensures v.Builtin? ==> y == Builtin(v.p)
    ensures v.Proc? ==>
      && y == Proc(S.Closure(Normalize(Optimize(v.closure.lam)), Home(w, v.closure.env)))
      && v.closure.lam.CLambda? && v.closure.env < |w.phi| && Fits(lv, v.closure.lam, Depth(w, v.closure.env), false)
  {
    hide Fits, Normalize, Optimize;
  }

  lemma BodyFits(lv: Levels, lam: Core, d: nat)
    requires lam.CLambda? && Fits(lv, lam, d, false)
    ensures Fits(lv, lam.body, d + 1, false)
  {
  }

  lemma {:induction false} SimApply(lv: Levels, w: World, s: D.Store, h: S.Store, v: D.DVal, y: S.SVal, vs: seq<D.DVal>,
                                    ys: seq<S.SVal>, p: Option<nat>, n: nat, m: nat)
    returns (w1: World, h1: S.Store, z: S.SVal)
    requires Rel(lv, w, s, h) && ValRel(lv, w, v, y) && ValsRel(lv, w, vs, ys)
    requires n <= m && D.ApplyProc(v, vs, s, n).Ok?
    ensures S.ApplyProc(y, ys, h, m) == S.Ok(z, h1)
    ensures Ends(lv, w, s, h, p, [], D.ApplyProc(v, vs, s, n).v, D.ApplyProc(v, vs, s, n).s, w1, h1, z)
    decreases n, 0, 0
  {
    hide Rel, ValRel, Grow, Ready, Used, Has, ValueAt, Ends, Depth, Spot, Optimize, Fits, Builtins.Apply, D.NewFrame,
      S.NewFrame;
    ProcRel(lv, w, v, y);
    if v.Builtin? {
      ApplyRel(lv, w, v.p, vs, ys);
      w1, h1, z := w, h, Builtins.Apply(v.p, ys).value;
      EndsNow(lv, w, s, h, p, Builtins.Apply(v.p, vs).value, z);
    } else {
      var lam, env := v.closure.lam, v.closure.env;
      RelSizes(lv, w, s, h);
      ApplyEnter(lv, w, s, h, lam, env, vs, ys, p);
      var g, w0 := |s.frames|, FreshWorld(w, h, env);
      var s0, h0 := s.(frames := s.frames + [D.NewFrame(lam, env, vs)]),
        h.(frames := h.frames + [FreshFrame(w, lam, env, ys)]);
      w1, h1, z := Sim(lv, w0, s0, h0, g, lam.body, false, n - 1, m - 1);
      var Ok(v1, s1) := D.Eval(lam.body, g, s0, n - 1);
      EndsParts(lv, w0, s0, h0, Spot(w0, g), Defs(Optimize(lam.body)), v1, s1, w1, h1, z);
      GrowInner(w, s, h, w0, s0, h0, w1, s1, h1, p, |h.frames|, Defs(Optimize(lam.body)));
      EndsIntro(lv, w, s, h, p, [], v1, s1, w1, h1, z);
    }
  }

  /** The body of a closure can run in its new frame. */
  lemma ApplyEnter(lv: Levels, w: World, s: D.Store, h: S.Store, lam: Core, env: nat, vs: seq<D.DVal>, ys: seq<S.SVal>,
                   p: Option<nat>)
    requires Rel(lv, w, s, h) && env < |s.frames| && lam.CLambda? && S.ArityOk(|lam.params|, lam.rest.Some?, |vs|)
    requires Fits(lv, lam, Depth(w, env), false) && ValsRel(lv, w, vs, ys)
    ensures var g, w0 := |s.frames|, FreshWorld(w, h, env);
      var s0, h0 := s.(frames := s.frames + [D.NewFrame(lam, env, vs)]),
        h.(frames := h.frames + [FreshFrame(w, lam, env, ys)]);
      && CanRun(lv, w0, s0, h0, g, lam.body, false) && Grow(w, s, h, w0, s0, h0, p, [])
      && Home(w0, g) == |h.frames| && Spot(w0, g) == Some(|h.frames|)
    ensures S.ArityOk(|lam.params|, lam.rest.Some?, |ys|)
    ensures Normalize(Optimize(lam)) == Lambda(lam.params, lam.rest, Hoisted(Optimize(lam.body), []),
                                               Normalize(Optimize(lam.body)))
  {
    hide Rel, ValRel, Grow, Ready, Used, Has, ValueAt, Depth, Spot, Optimize, Fits, D.NewFrame, S.NewFrame;
    OptimizeLambda(lam);
    RelSizes(lv, w, s, h);
    AddFresh(lv, w, s, h, env, lam, vs, ys, p);
    BodyFits(lv, lam, Depth(w, env));
    NewUp(lam, env, vs);
    SpotFresh(FreshWorld(w, h, env), |s.frames|);
  }

  lemma SpotFresh(w: World, g: nat)
    requires Depth(w, g) > 0
    ensures Spot(w, g) == Some(Home(w, g))
  {
  }

  lemma EndsIntro(lv: Levels, w: World, s: D.Store, h: S.Store, p: Option<nat>, xs: seq<Name>,
                  v: D.DVal, s1: D.Store, w1: World, h1: S.Store, y: S.SVal)
    requires Rel(lv, w1, s1, h1) && ValRel(lv, w1, v, y) && Grow(w, s, h, w1, s1, h1, p, xs)
    ensures Ends(lv, w, s, h, p, xs, v, s1, w1, h1, y)
  {
  }

  lemma NewUp(lam: Core, env: nat, vs: seq<D.DVal>)
    requires lam.CLambda? && S.ArityOk(|lam.params|, lam.rest.Some?, |vs|)
    ensures D.NewFrame(lam, env, vs).up == Some(env)
  {
  }

  // ---------- calls on the spot ----------

  /** A functor that optimizes to a lambda yields a closure over a frame with the same home. */
  lemma {:induction false} FunctorRun(lv: Levels, w: World, s: D.Store, h: S.Store, env: nat, fn: Core,
                                      p: Option<nat>, n: nat)
    returns (w1: World, env1: nat)
    requires Rel(lv, w, s, h) && env < |s.frames| && Optimize(fn).CLambda? && D.Eval(fn, env, s, n).Ok?
    ensures D.Eval(fn, env, s, n).v == Proc(D.Closure(Functor(fn), env1)) && env1 < |D.Eval(fn, env, s, n).s.frames|
    ensures Rel(lv, w1, D.Eval(fn, env, s, n).s, h) && Grow(w, s, h, w1, D.Eval(fn, env, s, n).s, h, p, [])
    ensures Home(w1, env1) == Home(w, env) && Depth(w1, env1) == Depth(w, env) && Spot(w1, env1) == Spot(w, env)
    decreases Size(fn)
  {
    hide Rel, Grow, Used, Has, ValueAt, Home, Depth, Spot, Builtins.Apply;
    if fn.CLambda? {
      w1, env1 := w, env;
      GrowRefl(w, s, h, p);
    } else {
      assert fn.CCall? && fn.args == [] && Fires(Optimize(fn.fn), []);
      var w2, env2 := FunctorRun(lv, w, s, h, env, fn.fn, p, n);
      var s2 := D.Eval(fn.fn, env, s, n).s;
      var lam := Functor(fn.fn);
      FunctorParts(fn.fn);
      AddEmpty(lv, w2, s2, h, env2, lam, p);
      NewUp(lam, env2, []);
      var s3 := s2.(frames := s2.frames + [D.NewFrame(lam, env2, [])]);
      assert D.Eval(fn, env, s, n) == D.ApplyProc(Proc(D.Closure(lam, env2)), [], s2, n);
      assert D.Eval(fn, env, s, n) == D.Eval(lam.body, |s2.frames|, s3, n - 1);
      w1, env1 := FunctorRun(lv, SharedWorld(w2, env2), s3, h, |s2.frames|, lam.body, p, n - 1);
      GrowTrans(w, s, h, w2, s2, h, SharedWorld(w2, env2), s3, h, p, [], []);
      var none: seq<Name> := [];
      assert none + none == none;
      GrowTrans(w, s, h, SharedWorld(w2, env2), s3, h, w1, D.Eval(fn, env, s, n).s, h, p, [], []);
    }
  }

  lemma AddEmpty(lv: Levels, w: World, s: D.Store, h: S.Store, env: nat, lam: Core, p: Option<nat>)
    requires Rel(lv, w, s, h) && env < |s.frames| && lam.CLambda? && lam.rest == None && lam.params == []
    ensures Rel(lv, SharedWorld(w, env), s.(frames := s.frames + [D.NewFrame(lam, env, [])]), h)
    ensures Grow(w, s, h, SharedWorld(w, env), s.(frames := s.frames + [D.NewFrame(lam, env, [])]), h, p, [])
    ensures Spot(SharedWorld(w, env), |s.frames|) == Spot(w, env)
      && Depth(SharedWorld(w, env), |s.frames|) == Depth(w, env)
    ensures Home(SharedWorld(w, env), |s.frames|) == Home(w, env)
  {
    hide Rel, Grow, Used, Has, ValueAt, D.NewFrame;
    AddShared(lv, w, s, h, env, lam, []);
    GrowNothing(w, s, h, SharedWorld(w, env), s.(frames := s.frames + [D.NewFrame(lam, env, [])]), h, Spot(w, env), p);
  }

  /** The same with less fuel, when the optimized code comes to an end with it. */
  lemma {:induction false} SimAt(lv: Levels, w: World, s: D.Store, h: S.Store, env: nat, e: Core,
                                 top: bool, n: nat, m: nat)
    returns (w1: World, h1: S.Store, y: S.SVal)
    requires CanRun(lv, w, s, h, env, e, top) && D.Eval(e, env, s, n).Ok?
    requires n <= m || !S.Eval(Normalize(Optimize(e)), Home(w, env), h, m).Timeout?
    ensures S.Eval(Normalize(Optimize(e)), Home(w, env), h, m) == S.Ok(y, h1)
    ensures Ends(lv, w, s, h, Spot(w, env), Defs(Optimize(e)), D.Eval(e, env, s, n).v,
                 D.Eval(e, env, s, n).s, w1, h1, y)
    decreases n, Size(e), 1
  {
    hide CanRun, Normalize, Optimize, Home, Ends, D.Eval, S.Eval;
    if n <= m {
      w1, h1, y := Sim(lv, w, s, h, env, e, top, n, m);
    } else {
      w1, h1, y := Sim(lv, w, s, h, env, e, top, n, n);
      Fuel.SourceMore(Normalize(Optimize(e)), Home(w, env), h, m, n);
    }
  }

  /** The names of the arguments after the first, and of the body. */
  function RestDefs(params: seq<Name>, args: seq<Core>, ds: seq<Name>): seq<Name>
    requires |params| == |args| > 0
  {
    RedexDefs(params[1..], args[1..]) + ds
  }

  /** The first argument of a call on the spot is evaluated and assigned. */
  lemma {:induction false} SimFirst(lv: Levels, w: World, s: D.Store, h: S.Store, env: nat, params: seq<Name>,
                                    args: seq<Core>, body: Core, ds: seq<Name>, top: bool, n: nat, m: nat)
    returns (w1: World, h2: S.Store, y: S.SVal)
    requires Rel(lv, w, s, h) && env < |s.frames| && top == (s.frames[env].up == None) && |params| == |args| > 0
    requires FitsAll(lv, args, Depth(w, env), top) && AllAt(lv, params, Depth(w, env))
    requires Ready(w, s, h, Spot(w, env), RedexDefs(params, OptimizeAll(args)) + ds)
    requires D.Eval(args[0], env, s, n).Ok?
    requires n <= m || !S.Eval(Normalize(Defines(params, OptimizeAll(args), body)), Home(w, env), h, m).Timeout?
    ensures S.Eval(Normalize(Defines(params, OptimizeAll(args), body)), Home(w, env), h, m)
         == S.Eval(Normalize(Defines(params[1..], OptimizeAll(args[1..]), body)), Home(w, env), h2, m)
    ensures var s1 := D.Eval(args[0], env, s, n).s;
      && Rel(lv, w1, s1, h2) && ValRel(lv, w1, D.Eval(args[0], env, s, n).v, y)
      && env < |s1.frames| && s1.frames[env].up == s.frames[env].up
      && Grow(w, s, h, w1, s1, h2, Spot(w, env), Defs(Optimize(args[0])) + [params[0]])
      && Ready(w1, s1, h2, Spot(w, env), RestDefs(params, OptimizeAll(args), ds))
      && Assigned(w1, s1, h2, Spot(w, env), params[0], y)
    ensures Home(w1, env) == Home(w, env) && Depth(w1, env) == Depth(w, env) && Spot(w1, env) == Spot(w, env)
    ensures params[0] !in RestDefs(params, OptimizeAll(args), ds) && h2.globals.Keys == h.globals.Keys
    ensures OptimizeAll(args)[1..] == OptimizeAll(args[1..])
    decreases n, SizeAll(args), 2
  {
    hide Rel, ValRel, Grow, Ready, Used, Has, ValueAt, Ends, Home, Depth, Spot, S.Update, WriteAt, Assigned;
    var p := Spot(w, env);
    var x, args1 := params[0], OptimizeAll(args);
    assert args1[1..] == OptimizeAll(args[1..]);
    var ds0, rest := Defs(args1[0]), RestDefs(params, args1, ds);
    assert RedexDefs(params, args1) + ds == [x] + ds0 + rest;
    ReadyFirst(w, s, h, p, x, ds0, rest);
    ReadyParts(w, s, h, p, ds0, [x] + rest);
    if n > m { DefinesFirst(params, args1, body, Home(w, env), h, m); }
    var h1;
    w1, h1, y := SimAt(lv, w, s, h, env, args[0], top, n, m);
    var Ok(v, s1) := D.Eval(args[0], env, s, n);
    Onward(lv, w, s, h, env, ds0, [x] + rest, v, s1, w1, h1, y);
    ReadyParts(w1, s1, h1, p, [x], rest);
    ReadyOne(w1, s1, h1, p, x);
    UpdateHere(lv, w1, s1, h1, env, x, y);
    WriteUnused(lv, w1, s1, h1, env, x, y);
    h2 := WriteAt(h1, p, x, y);
    AssignedNow(w1, s1, h1, h2, p, x, y);
    ReadyNext(w1, s1, h1, w1, s1, h2, p, [x], rest);
    GrowTrans(w, s, h, w1, s1, h1, w1, s1, h2, p, ds0, [x]);
    DefinesStep(params, args1, body, Home(w, env), h, h1, y, h2, m);
  }

  /** When the definitions come to an end, so does the first. */
  lemma DefinesFirst(params: seq<Name>, args: seq<Core>, body: Core, f: nat, h: S.Store, m: nat)
    requires |params| == |args| > 0 && !S.Eval(Normalize(Defines(params, args, body)), f, h, m).Timeout?
    ensures !S.Eval(Normalize(args[0]), f, h, m).Timeout?
  {
    hide S.Update;
    var rest := Defines(params[1..], args[1..], body);
    assert Defines(params, args, body) == CBegin(CDefine(params[0], args[0]), rest);
    assert Normalize(CBegin(CDefine(params[0], args[0]), rest))
      == Begin(Set(params[0], Normalize(args[0])), Normalize(rest));
  }

  /** The arguments of a call on the spot, evaluated from left to right and assigned as they come. */
  lemma {:induction false} SimRedexArgs(lv: Levels, w: World, s: D.Store, h: S.Store, env: nat, params: seq<Name>,
                                        args: seq<Core>, body: Core, ds: seq<Name>, top: bool, n: nat, m: nat)
    returns (w1: World, h1: S.Store, ys: seq<S.SVal>)
    requires Rel(lv, w, s, h) && env < |s.frames| && top == (s.frames[env].up == None) && |params| == |args|
    requires FitsAll(lv, args, Depth(w, env), top) && AllAt(lv, params, Depth(w, env))
    requires Ready(w, s, h, Spot(w, env), RedexDefs(params, OptimizeAll(args)) + ds)
    requires D.EvalArgs(args, env, s, n).ArgsOk?
    requires n <= m || !S.Eval(Normalize(Defines(params, OptimizeAll(args), body)), Home(w, env), h, m).Timeout?
    ensures S.Eval(Normalize(Defines(params, OptimizeAll(args), body)), Home(w, env), h, m)
         == S.Eval(Normalize(body), Home(w, env), h1, m)
    ensures Rel(lv, w1, D.EvalArgs(args, env, s, n).s, h1) && ValsRel(lv, w1, D.EvalArgs(args, env, s, n).vs, ys)
    ensures Grow(w, s, h, w1, D.EvalArgs(args, env, s, n).s, h1, Spot(w, env), RedexDefs(params, OptimizeAll(args)))
    ensures |ys| == |params| && forall i :: 0 <= i < |params| ==>
      Assigned(w1, D.EvalArgs(args, env, s, n).s, h1, Spot(w, env), params[i], ys[i])
    ensures NoDup(params) && h1.globals.Keys == h.globals.Keys
    decreases n, SizeAll(args), 3
  {
    hide Rel, ValRel, Grow, Ready, Used, Has, ValueAt, Ends, Home, Depth, Spot, S.Update, WriteAt, Assigned;
    var p := Spot(w, env);
    if args == [] {
      w1, h1, ys := w, h, [];
      GrowRefl(w, s, h, p);
    } else {
      var x, args1 := params[0], OptimizeAll(args);
      var ds0, rest := Defs(args1[0]), RedexDefs(params[1..], args1[1..]);
      var h2, y;
      w1, h2, y := SimFirst(lv, w, s, h, env, params, args, body, ds, top, n, m);
      var Ok(v, s1) := D.Eval(args[0], env, s, n);
      var w3, h3, zs := SimRedexArgs(lv, w1, s1, h2, env, params[1..], args[1..], body, ds, top, n, m);
      var ArgsOk(vs, s3) := D.EvalArgs(args[1..], env, s1, n);
      GrowTrans(w, s, h, w1, s1, h2, w3, s3, h3, p, ds0 + [x], rest);
      GrowMore(w, s, h, w3, s3, h3, p, ds0 + [x] + rest, RedexDefs(params, args1));
      AssignedStays(w1, s1, h2, w3, s3, h3, p, rest, x, y);
      ConsRel(lv, w1, w3, v, y, vs, zs, s1, h2, s3, h3, p, rest);
      ParamsFresh(params, args1, rest);
      w1, h1, ys := w3, h3, [y] + zs;
    }
  }

  /** The cell of `x` holds `y`, and no direct variable has it yet. */
  ghost predicate Assigned(w: World, s: D.Store, h: S.Store, p: Option<nat>, x: Name, y: S.SVal) {
    Has(h, p, x) && !Used(w, s, p, x) && ValueAt(h, p, x) == Some(y)
  }

  lemma AssignedNow(w: World, s: D.Store, h: S.Store, h1: S.Store, p: Option<nat>, x: Name, y: S.SVal)
    requires Has(h, p, x) && !Used(w, s, p, x) && ValueAt(h1, p, x) == Some(y)
    ensures Assigned(w, s, h1, p, x, y)
  {
    HasValue(h1, p, x);
  }

  lemma AssignedStays(w: World, s: D.Store, h: S.Store, w1: World, s1: D.Store, h1: S.Store, p: Option<nat>,
                      xs: seq<Name>, x: Name, y: S.SVal)
    requires Assigned(w, s, h, p, x, y) && Grow(w, s, h, w1, s1, h1, p, xs) && x !in xs
    ensures Assigned(w1, s1, h1, p, x, y)
  {
    CellStays(w, s, h, w1, s1, h1, p, xs, x);
  }

  lemma DefinesStep(params: seq<Name>, args: seq<Core>, body: Core, f: nat, h: S.Store, h1: S.Store, y: S.SVal,
                    h2: S.Store, m: nat)
    requires |params| == |args| > 0
    requires S.Eval(Normalize(args[0]), f, h, m) == S.Ok(y, h1) && S.Update(h1, f, params[0], y) == Some(h2)
    ensures S.Eval(Normalize(Defines(params, args, body)), f, h, m)
         == S.Eval(Normalize(Defines(params[1..], args[1..], body)), f, h2, m)
    ensures h2.globals.Keys == h.globals.Keys
  {
    hide S.Update;
    var rest := Defines(params[1..], args[1..], body);
    assert Defines(params, args, body) == CBegin(CDefine(params[0], args[0]), rest);
    assert Normalize(CBegin(CDefine(params[0], args[0]), rest))
      == Begin(Set(params[0], Normalize(args[0])), Normalize(rest));
    assert S.Eval(Set(params[0], Normalize(args[0])), f, h, m) == S.Ok(Undef, h2);
    forall x ensures x in h2.globals <==> x in h.globals {
      Fuel.SameGlobals(Set(params[0], Normalize(args[0])), f, h, m, x);
    }
  }

  lemma {:induction false} ParamsIn(params: seq<Name>, args: seq<Core>)
    requires |params| == |args|
    ensures forall x :: x in params ==> x in RedexDefs(params, args)
    decreases |args|
  {
    if args != [] { ParamsIn(params[1..], args[1..]); }
  }

  lemma ParamsFresh(params: seq<Name>, args: seq<Core>, rest: seq<Name>)
    requires |params| == |args| > 0 && rest == RedexDefs(params[1..], args[1..]) && NoDup(params[1..])
      && params[0] !in rest
    ensures NoDup(params)
  {
    ParamsIn(params[1..], args[1..]);
    forall i, j | 0 <= i < j < |params| ensures params[i] != params[j] {
      assert params[1..][j - 1] == params[j];
      if i > 0 { assert params[1..][i - 1] == params[i]; }
    }
  }

  /** The frame of a call on the spot. */
  function RedexStore(fn: Core, vs: seq<D.DVal>, s: D.Store, env: nat): D.Store
    requires Optimize(fn).CLambda? && S.ArityOk(|Functor(fn).params|, Functor(fn).rest.Some?, |vs|)
  {
    s.(frames := s.frames + [D.NewFrame(Functor(fn), env, vs)])
  }

  /** A call of a lambda on the spot, up to its body. */
  lemma {:induction false} RedexEnter(lv: Levels, w: World, s: D.Store, h: S.Store, env: nat, fn: Core, args: seq<Core>,
                                      top: bool, n: nat, m: nat)
    returns (w4: World, h3: S.Store, env1: nat)
    requires CanRun(lv, w, s, h, env, CCall(fn, args), top) && Fires(Optimize(fn), args)
    requires D.Eval(fn, env, s, n).Ok? && D.EvalArgs(args, env, D.Eval(fn, env, s, n).s, n).ArgsOk?
    requires n <= m || !S.Eval(Normalize(Optimize(CCall(fn, args))), Home(w, env), h, m).Timeout?
    ensures var xs, s3 := RedexDefs(Functor(fn).params, OptimizeAll(args)),
      D.EvalArgs(args, env, D.Eval(fn, env, s, n).s, n).s;
      var s4 := RedexStore(fn, D.EvalArgs(args, env, D.Eval(fn, env, s, n).s, n).vs, s3, env1);
      && Grow(w, s, h, w4, s4, h3, Spot(w, env), xs)
      && CanRun(lv, w4, s4, h3, |s3.frames|, Functor(fn).body, false)
      && Home(w4, |s3.frames|) == Home(w, env) && Spot(w4, |s3.frames|) == Spot(w, env)
      && Defs(Optimize(CCall(fn, args))) == xs + Defs(Optimize(Functor(fn).body))
      && D.Eval(CCall(fn, args), env, s, n)
         == if n == 0 then D.Timeout else D.Eval(Functor(fn).body, |s3.frames|, s4, n - 1)
    ensures D.Eval(fn, env, s, n).v == Proc(D.Closure(Functor(fn), env1)) && h3.globals.Keys == h.globals.Keys
    ensures S.Eval(Normalize(Optimize(CCall(fn, args))), Home(w, env), h, m)
         == S.Eval(Normalize(Optimize(Functor(fn).body)), Home(w, env), h3, m)
    decreases n, Size(CCall(fn, args)) - 1, 3
  {
    hide Rel, ValRel, Grow, Ready, Used, Has, ValueAt, Ends, Home, Depth, Spot, Optimize, Fits, Defs, Normalize, S.Eval,
      D.NewFrame;
    var p := Spot(w, env);
    OptimizeCall(fn, args);
    FitsCall(lv, fn, args, Depth(w, env), top);
    FunctorParts(fn);
    var lam, args1 := Functor(fn), OptimizeAll(args);
    var xs, ds := RedexDefs(lam.params, args1), Defs(Optimize(lam.body));
    DefsOfDefines(lam.params, args1, Optimize(lam.body));
    // the functor
    var Ok(v, s1) := D.Eval(fn, env, s, n);
    var w2;
    w2, env1 := FunctorRun(lv, w, s, h, env, fn, p, n);
    Later(lv, w, s, h, w2, s1, h, p, [], env);
    assert [] + (xs + ds) == xs + ds;
    ReadyNext(w, s, h, w2, s1, h, p, [], xs + ds);
    // the arguments
    var w3, ys;
    w3, h3, ys := SimRedexArgs(lv, w2, s1, h, env, lam.params, args, Optimize(lam.body), ds, top, n, m);
    var ArgsOk(vs, s3) := D.EvalArgs(args, env, s1, n);
    ReadyNext(w2, s1, h, w3, s3, h3, p, xs, ds);
    Later(lv, w2, s1, h, w3, s3, h3, p, xs, env1);
    GrowTrans(w, s, h, w2, s1, h, w3, s3, h3, p, [], xs);
    assert [] + xs == xs;
    // the new frame
    w4 := SharedWorld(w3, env1);
    EnterBody(lv, w, s, h, w3, s3, h3, env1, p, lam, args1, vs, ys);
    RedexApply(fn, args, env, s, n, s1, vs, s3, lam, env1);
  }

  /** The frame of a call on the spot shares the home of the code around it. */
  lemma EnterBody(lv: Levels, w: World, s: D.Store, h: S.Store, w3: World, s3: D.Store, h3: S.Store, env1: nat,
                  p: Option<nat>, lam: Core, args: seq<Core>, vs: seq<D.DVal>, ys: seq<S.SVal>)
    requires lam.CLambda? && lam.rest == None && |lam.params| == |args| == |vs|
    requires Ready(w, s, h, p, RedexDefs(lam.params, args) + Defs(Optimize(lam.body)))
      && Ready(w3, s3, h3, p, Defs(Optimize(lam.body)))
    requires Rel(lv, w3, s3, h3) && Grow(w, s, h, w3, s3, h3, p, RedexDefs(lam.params, args))
    requires env1 < |s3.frames| && p == Spot(w3, env1) && AllAt(lv, lam.params, Depth(w3, env1)) && NoDup(lam.params)
    requires ValsRel(lv, w3, vs, ys) && forall i :: 0 <= i < |lam.params| ==>
      Assigned(w3, s3, h3, p, lam.params[i], ys[i])
    requires Fits(lv, lam.body, Depth(w3, env1), false)
    ensures var w4, s4 := SharedWorld(w3, env1), s3.(frames := s3.frames + [D.NewFrame(lam, env1, vs)]);
      && CanRun(lv, w4, s4, h3, |s3.frames|, lam.body, false)
      && Grow(w, s, h, w4, s4, h3, p, RedexDefs(lam.params, args))
      && Home(w4, |s3.frames|) == Home(w3, env1) && Spot(w4, |s3.frames|) == p
  {
    hide Rel, ValRel, Grow, Ready, Used, Has, ValueAt, Home, Depth, Spot, Optimize, Fits, Defs, D.NewFrame, Assigned;
    var xs, ds := RedexDefs(lam.params, args), Defs(Optimize(lam.body));
    var w4, s4 := SharedWorld(w3, env1), s3.(frames := s3.frames + [D.NewFrame(lam, env1, vs)]);
    AddRedex(lv, w3, s3, h3, env1, p, lam, vs, ys);
    ReadyRedexBody(w3, s3, h3, w4, s4, p, lam, args, ds, w, s, h);
    GrowTrans(w, s, h, w3, s3, h3, w4, s4, h3, p, xs, lam.params);
    ParamsIn(lam.params, args);
    GrowMore(w, s, h, w4, s4, h3, p, xs + lam.params, xs);
    NewUp(lam, env1, vs);
  }

  /** A call of a lambda on the spot. */
  lemma {:induction false} SimRedex(lv: Levels, w: World, s: D.Store, h: S.Store, env: nat, fn: Core, args: seq<Core>,
                                    top: bool, n: nat, m: nat)
    returns (w1: World, h1: S.Store, y: S.SVal)
    requires CanRun(lv, w, s, h, env, CCall(fn, args), top) && n <= m && D.Eval(CCall(fn, args), env, s, n).Ok?
    requires Fires(Optimize(fn), args)
    ensures S.Eval(Normalize(Optimize(CCall(fn, args))), Home(w, env), h, m) == S.Ok(y, h1)
    ensures Ends(lv, w, s, h, Spot(w, env), Defs(Optimize(CCall(fn, args))),
                 D.Eval(CCall(fn, args), env, s, n).v, D.Eval(CCall(fn, args), env, s, n).s, w1, h1, y)
    decreases n, Size(CCall(fn, args)) - 1, 4
  {
    hide Rel, ValRel, Grow, Ready, Used, Has, ValueAt, Ends, Home, Depth, Spot, Optimize, Fits, Defs, Normalize, S.Eval,
      D.NewFrame, CanRun;
    FunctorParts(fn);
    var w4, h3, env1 := RedexEnter(lv, w, s, h, env, fn, args, top, n, m);
    var s1 := D.Eval(fn, env, s, n).s;
    var ArgsOk(vs, s3) := D.EvalArgs(args, env, s1, n);
    var s4, body := RedexStore(fn, vs, s3, env1), Functor(fn).body;
    w1, h1, y := Sim(lv, w4, s4, h3, |s3.frames|, body, false, n - 1, m);
    var Ok(v5, s5) := D.Eval(body, |s3.frames|, s4, n - 1);
    Together(lv, w, s, h, Spot(w, env), RedexDefs(Functor(fn).params, OptimizeAll(args)), w4, s4, h3,
             Defs(Optimize(body)), v5, s5, w1, h1, y);
  }

  lemma AddRedex(lv: Levels, w: World, s: D.Store, h: S.Store, env: nat, p: Option<nat>, lam: Core, vs: seq<D.DVal>,
                 ys: seq<S.SVal>)
    requires Rel(lv, w, s, h) && env < |s.frames| && p == Spot(w, env) && lam.CLambda? && lam.rest == None
    requires |lam.params| == |vs| && ValsRel(lv, w, vs, ys) && NoDup(lam.params) && AllAt(lv, lam.params, Depth(w, env))
    requires forall i :: 0 <= i < |lam.params| ==> Assigned(w, s, h, p, lam.params[i], ys[i])
    ensures Rel(lv, SharedWorld(w, env), s.(frames := s.frames + [D.NewFrame(lam, env, vs)]), h)
    ensures Grow(w, s, h, SharedWorld(w, env), s.(frames := s.frames + [D.NewFrame(lam, env, vs)]), h, p, lam.params)
    ensures Spot(SharedWorld(w, env), |s.frames|) == p && Depth(SharedWorld(w, env), |s.frames|) == Depth(w, env)
    ensures Home(SharedWorld(w, env), |s.frames|) == Home(w, env)
  {
    hide Rel, ValRel, Grow, Used, Has, ValueAt, Depth, Home, Spot, D.NewFrame;
    forall i | 0 <= i < |vs|
      ensures !Used(w, s, Spot(w, env), lam.params[i]) && ValueAt(h, Spot(w, env), lam.params[i]).Some?
      ensures ValRel(lv, w, vs[i], ValueAt(h, Spot(w, env), lam.params[i]).value)
    {
      assert Assigned(w, s, h, p, lam.params[i], ys[i]);
    }
    AddShared(lv, w, s, h, env, lam, vs);
  }

  lemma ReadyRedexBody(w3: World, s3: D.Store, h3: S.Store, w4: World, s4: D.Store, p: Option<nat>, lam: Core,
                       args: seq<Core>, ds: seq<Name>, w: World, s: D.Store, h: S.Store)
    requires lam.CLambda? && |lam.params| == |args|
    requires Ready(w, s, h, p, RedexDefs(lam.params, args) + ds) && Ready(w3, s3, h3, p, ds)
    requires Grow(w3, s3, h3, w4, s4, h3, p, lam.params)
    ensures Ready(w4, s4, h3, p, ds)
  {
    hide Used, Has, ValueAt;
    ParamsIn(lam.params, args);
    PrefixNoDup(RedexDefs(lam.params, args), ds);
  }

  lemma RedexApply(fn: Core, args: seq<Core>, env: nat, s: D.Store, n: nat, s1: D.Store, vs: seq<D.DVal>, s3: D.Store,
                   lam: Core, env1: nat)
    requires D.Eval(fn, env, s, n) == D.Ok(Proc(D.Closure(lam, env1)), s1)
      && D.EvalArgs(args, env, s1, n) == D.ArgsOk(vs, s3)
    requires lam.CLambda? && lam.rest == None && |lam.params| == |vs|
    ensures D.Eval(CCall(fn, args), env, s, n)
         == if n == 0 then D.Timeout else D.Eval(lam.body, |s3.frames|,
                                                 s3.(frames := s3.frames + [D.NewFrame(lam, env1, vs)]), n - 1)
  {
    hide D.NewFrame;
    assert D.Eval(CCall(fn, args), env, s, n) == D.ApplyProc(Proc(D.Closure(lam, env1)), vs, s3, n);
  }
}
