/** How the frames of the direct meaning lie in the frames of the optimized program: the frame of a
    redex shares the frame of the code around it. */
module Merging {
  import opened Util
  import opened Syntax
  import opened CoreForms
  import Builtins
  import S = Source
  import D = Direct

  /** For every local name the nesting depth of the frame that holds it; 0 is the top level. */
  type Levels = map<Name, nat>

  /** `phi` gives the frame of the optimized run in which a direct frame lies, `lev` the nesting
      depth of a frame of the optimized run. */
  datatype World = World(phi: seq<nat>, lev: seq<nat>)

  /** Where code of frame `env` runs. */
  function Home(w: World, env: nat): nat {
    if env < |w.phi| then w.phi[env] else 0
  }

  /** The nesting depth at which code of frame `env` runs. */
  function Depth(w: World, env: nat): nat {
    if Home(w, env) < |w.lev| then w.lev[Home(w, env)] else 0
  }

  /** Where code of frame `env` keeps its variables: in its home, or, at depth 0, among the globals. */
  function Spot(w: World, env: nat): Option<nat> {
    if Depth(w, env) > 0 then Some(Home(w, env)) else None
  }

  // ---------- scopes ----------

  ghost predicate AllAt(lv: Levels, xs: seq<Name>, d: nat) {
    forall x :: x in xs ==> x in lv && lv[x] == d
  }

  function RestNames(rest: Option<Name>): seq<Name> {
    if rest.Some? then [rest.value] else []
  }

  /** The levels fit the code: a lambda's names live one level further in, unless it is called on
      the spot, when they live at the level of the call. */
  ghost predicate Fits(lv: Levels, e: Core, d: nat, top: bool)
    decreases Size(e), 1
  {
    match e
    case CQuote(_) | CVar(_) => true
    case CSet(_, e1) => Fits(lv, e1, d, top)
    case CIf(c, t, f) => Fits(lv, c, d, top) && Fits(lv, t, d, top) && Fits(lv, f, d, top)
    case CBegin(a, b) => Fits(lv, a, d, top) && Fits(lv, b, d, top)
    case CDefine(x, e1) => (if top then x !in lv else x in lv && lv[x] == d) && Fits(lv, e1, d, top)
    case CLambda(ps, r, b) =>
      AllAt(lv, ps + RestNames(r), d + 1) && Fits(lv, b, d + 1, false) && NoDup(ps + RestNames(r) + Defs(Optimize(b)))
    case CCall(fn, args) =>
      && FitsAll(lv, args, d, top)
      && if Fires(Optimize(fn), args) then
           AllAt(lv, Functor(fn).params, d) && Fits(lv, Functor(fn).body, d, false)
         else Fits(lv, fn, d, top)
  }

  ghost predicate FitsAll(lv: Levels, es: seq<Core>, d: nat, top: bool)
    decreases SizeAll(es), 2
  {
    es != [] ==> Fits(lv, es[0], d, top) && FitsAll(lv, es[1..], d, top)
  }

  // ---------- values ----------

  ghost predicate ValRel(lv: Levels, w: World, v: D.DVal, x: S.SVal)
    decreases v
  {
    match v
    case Pair(a, b) => x.Pair? && ValRel(lv, w, a, x.car) && ValRel(lv, w, b, x.cdr)
    case Proc(c) =>
      && x.Proc? && c.lam.CLambda? && x.closure.lam == Normalize(Optimize(c.lam))
      && c.env < |w.phi| && x.closure.env == Home(w, c.env) < |w.lev| && Fits(lv, c.lam, Depth(w, c.env), false)
    case Undef => x == Undef
    case Bool(b) => x == Bool(b)
    case Int(i) => x == Int(i)
    case Flo(r) => x == Flo(r)
    case Char(c) => x == Char(c)
    case Nil => x == Nil
    case Eof => x == Eof
    case Sym(n) => x == Sym(n)
    case Builtin(p) => x == Builtin(p)
  }

  ghost predicate ValsRel(lv: Levels, w: World, vs: seq<D.DVal>, xs: seq<S.SVal>) {
    |vs| == |xs| && forall i :: 0 <= i < |vs| ==> ValRel(lv, w, vs[i], xs[i])
  }

  ghost predicate Ext(w: World, w1: World) {
    w.phi <= w1.phi && w.lev <= w1.lev
  }

  lemma {:induction false} ValRelExt(lv: Levels, w: World, w1: World, v: D.DVal, x: S.SVal)
    requires Ext(w, w1) && ValRel(lv, w, v, x)
    ensures ValRel(lv, w1, v, x)
    decreases v
  {
    hide Fits;
    match v
    case Pair(a, b) =>
      ValRelExt(lv, w, w1, a, x.car);
      ValRelExt(lv, w, w1, b, x.cdr);
    case _ =>
  }

  lemma {:induction false} ListRel(lv: Levels, w: World, vs: seq<D.DVal>, xs: seq<S.SVal>)
    requires ValsRel(lv, w, vs, xs)
    ensures ValRel(lv, w, S.ListOf(vs), S.ListOf(xs))
    decreases vs
  {
    if vs != [] { ListRel(lv, w, vs[1..], xs[1..]); }
  }

  lemma {:induction false} InjectRel(lv: Levels, w: World, d: Datum)
    ensures ValRel(lv, w, Inject(d), Inject(d))
    decreases d
  {
    if d.DPair? {
      InjectRel(lv, w, d.car);
      InjectRel(lv, w, d.cdr);
    }
  }

  ghost predicate ResultRel(lv: Levels, w: World, r: Option<D.DVal>, x: Option<S.SVal>) {
    r.Some? == x.Some? && (r.Some? ==> ValRel(lv, w, r.value, x.value))
  }

  lemma {:induction false} FoldRel(lv: Levels, w: World, p: Prim, a: D.DVal, b: S.SVal, vs: seq<D.DVal>,
                                   xs: seq<S.SVal>)
    requires ValRel(lv, w, a, b) && ValsRel(lv, w, vs, xs)
    ensures ResultRel(lv, w, Builtins.FoldArith(p, a, vs), Builtins.FoldArith(p, b, xs))
    decreases vs
  {
    hide Fits;
    if vs != [] {
      var r, x := Builtins.Arith(p, a, vs[0]), Builtins.Arith(p, b, xs[0]);
      assert ValRel(lv, w, vs[0], xs[0]);
      if r.Some? { FoldRel(lv, w, p, r.value, x.value, vs[1..], xs[1..]); }
    }
  }

  lemma {:induction false} ChainRel(lv: Levels, w: World, p: Prim, vs: seq<D.DVal>, xs: seq<S.SVal>)
    requires ValsRel(lv, w, vs, xs)
    ensures ResultRel(lv, w, Builtins.Chain(p, vs), Builtins.Chain(p, xs))
    decreases vs
  {
    hide Fits;
    if |vs| >= 2 {
      assert ValRel(lv, w, vs[0], xs[0]) && ValRel(lv, w, vs[1], xs[1]);
      ChainRel(lv, w, p, vs[1..], xs[1..]);
    }
  }

  /** Builtins cannot tell related arguments apart. */
  lemma ApplyRel(lv: Levels, w: World, p: Prim, vs: seq<D.DVal>, xs: seq<S.SVal>)
    requires ValsRel(lv, w, vs, xs)
    ensures ResultRel(lv, w, Builtins.Apply(p, vs), Builtins.Apply(p, xs))
  {
    hide Fits;
    if vs != [] {
      assert ValRel(lv, w, vs[0], xs[0]);
      FoldRel(lv, w, p, vs[0], xs[0], vs[1..], xs[1..]);
    }
    if |vs| == 2 { assert ValRel(lv, w, vs[1], xs[1]); }
    ChainRel(lv, w, p, vs, xs);
  }

  // ---------- stores ----------

  /** The value that variable `x` has in a place of the optimized run: a frame, or the globals. */
  function ValueAt(h: S.Store, p: Option<nat>, x: Name): Option<S.SVal> {
    match p
    case None => if x in h.globals then h.globals[x] else None
    case Some(t) =>
      if t < |h.frames| && x in h.frames[t].names && IndexOf(h.frames[t].names, x) < |h.frames[t].vals| then
        Some(h.frames[t].vals[IndexOf(h.frames[t].names, x)])
      else None
  }

  /** The place has a cell for `x`. */
  predicate Has(h: S.Store, p: Option<nat>, x: Name) {
    match p
    case None => x in h.globals
    case Some(t) => t < |h.frames| && x in h.frames[t].names
  }

  /** Direct frame `g` has `x`, and keeps it in place `p`. */
  ghost predicate UsedBy(w: World, s: D.Store, p: Option<nat>, x: Name, g: nat) {
    g < |w.phi| && g < |s.frames| && Spot(w, g) == p && x in s.frames[g].vars
  }

  /** The cell of `x` in place `p` holds a variable of the direct run. */
  ghost predicate Used(w: World, s: D.Store, p: Option<nat>, x: Name) {
    (exists g :: UsedBy(w, s, p, x, g)) || (p == None && x in s.globals)
  }

  /** A frame of the optimized run: its names have its depth, its parent is one level further out. */
  ghost predicate TargetOk(lv: Levels, w: World, h: S.Store, t: nat)
    requires t < |h.frames| == |w.lev|
  {
    match h.frames[t].up
    case None => h.frames[t].names == [] && w.lev[t] == 0
    case Some(q) =>
      && |h.frames[t].vals| == |h.frames[t].names|
      && (forall x :: x in h.frames[t].names ==> x in lv && lv[x] == w.lev[t])
      && q < t && w.lev[t] == w.lev[q] + 1
  }

  /** A direct frame and its home. */
  ghost predicate FrameOk(lv: Levels, w: World, s: D.Store, h: S.Store, g: nat)
    requires g < |s.frames| == |w.phi| && |h.frames| == |w.lev|
  {
    && w.phi[g] < |h.frames|
    && (match s.frames[g].up
        case None => h.frames[w.phi[g]].up == None && s.frames[g].vars == map[]
        case Some(p) => p < g && (w.phi[g] == w.phi[p] || h.frames[w.phi[g]].up == Some(w.phi[p])))
    && forall x :: x in s.frames[g].vars ==> VarOk(lv, w, s, h, g, x)
  }

  ghost predicate VarOk(lv: Levels, w: World, s: D.Store, h: S.Store, g: nat, x: Name)
    requires g < |s.frames| && x in s.frames[g].vars
  {
    && x in lv && lv[x] == Depth(w, g)
    && ValueAt(h, Spot(w, g), x).Some? && ValRel(lv, w, s.frames[g].vars[x], ValueAt(h, Spot(w, g), x).value)
  }

  ghost predicate GlobalOk(lv: Levels, w: World, s: D.Store, h: S.Store, x: Name)
    requires x in s.globals
  {
    x !in lv && ValueAt(h, None, x).Some? && ValRel(lv, w, s.globals[x], ValueAt(h, None, x).value)
  }

  /** No cell belongs to two direct frames. */
  ghost predicate NotShared(w: World, s: D.Store) {
    forall p, x, g1, g2 :: UsedBy(w, s, p, x, g1) && UsedBy(w, s, p, x, g2) ==> g1 == g2
  }

  /** No global variable has a value before the direct run has given it one. */
  ghost predicate NoneEarly(lv: Levels, s: D.Store, h: S.Store) {
    forall x :: x !in lv && ValueAt(h, None, x).Some? ==> x in s.globals
  }

  ghost predicate Rel(lv: Levels, w: World, s: D.Store, h: S.Store) {
    && |w.phi| == |s.frames| && |w.lev| == |h.frames|
    && (forall t :: 0 <= t < |h.frames| ==> TargetOk(lv, w, h, t))
    && (forall g :: 0 <= g < |s.frames| ==> FrameOk(lv, w, s, h, g))
    && (forall x :: x in s.globals ==> GlobalOk(lv, w, s, h, x))
    && NotShared(w, s) && NoneEarly(lv, s, h)
  }

  // ---------- growing ----------

  /** What running code in place `p` that defines `xs` may do: the cells of other variables stay
      unused and keep their contents. */
  ghost predicate Grow(w: World, s: D.Store, h: S.Store, w1: World, s1: D.Store, h1: S.Store, p: Option<nat>,
                       xs: seq<Name>) {
    && Ext(w, w1) && |s.frames| <= |s1.frames| && |h.frames| <= |h1.frames|
    && (forall g :: 0 <= g < |s.frames| ==> s1.frames[g].up == s.frames[g].up)
    && (forall q, x :: Has(h, q, x) ==> Has(h1, q, x))
    && (forall q, x :: Has(h, q, x) && !Used(w, s, q, x) && !(q == p && x in xs) ==>
          !Used(w1, s1, q, x) && ValueAt(h1, q, x) == ValueAt(h, q, x))
  }

  /** Place `p` has an unused cell for each of `xs`. */
  ghost predicate Ready(w: World, s: D.Store, h: S.Store, p: Option<nat>, xs: seq<Name>) {
    NoDup(xs) && forall x :: x in xs ==> Has(h, p, x) && !Used(w, s, p, x)
  }

  lemma GrowRefl(w: World, s: D.Store, h: S.Store, p: Option<nat>)
    ensures Grow(w, s, h, w, s, h, p, [])
  {
  }

  lemma GrowTrans(w: World, s: D.Store, h: S.Store, w1: World, s1: D.Store, h1: S.Store, w2: World,
                  s2: D.Store, h2: S.Store, p: Option<nat>, xs: seq<Name>, ys: seq<Name>)
    requires Grow(w, s, h, w1, s1, h1, p, xs) && Grow(w1, s1, h1, w2, s2, h2, p, ys)
    ensures Grow(w, s, h, w2, s2, h2, p, xs + ys)
  {
    hide Used, Has, ValueAt;
  }

  lemma ReadyNext(w: World, s: D.Store, h: S.Store, w1: World, s1: D.Store, h1: S.Store, p: Option<nat>, xs: seq<Name>,
                  ys: seq<Name>)
    requires Ready(w, s, h, p, xs + ys) && Grow(w, s, h, w1, s1, h1, p, xs)
    ensures Ready(w, s, h, p, xs) && Ready(w1, s1, h1, p, ys)
  {
    hide Used, Has, ValueAt;
    forall i | 0 <= i < |xs| ensures (xs + ys)[i] == xs[i] {}
    forall j | 0 <= j < |ys| ensures (xs + ys)[|xs| + j] == ys[j] {}
    forall y | y in ys ensures y !in xs {
      var j :| 0 <= j < |ys| && ys[j] == y;
      assert (xs + ys)[|xs| + j] == y;
    }
  }
}
