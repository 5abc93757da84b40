/** When a state of the machine represents a source store: which values, frames and contexts
    stand for each other. */
module Relation {
  import opened Util
  import opened Syntax
  import Builtins
  import S = Source
  import A = Analyzer
  import C = Codegen
  import H = HeapMachine

  /** `beta` maps the source frames that own a context to it; `scopes` gives every source frame
      the compile-time scope its code was generated in. */
  datatype World = World(beta: map<nat, nat>, scopes: seq<Scope>)

  ghost predicate CompiledAs(s: Scope, lam: Expr, ir: Irep) {
    exists a: AExpr :: a.ALambda? && A.Addressed(s, lam, a) && C.GenLambda(s, a) == Some(ir)
  }

  ghost predicate ValRel(w: World, v: S.SVal, x: H.VVal)
    decreases v
  {
    match v
    case Undef => x.Undef?
    case Bool(b) => x == Bool(b)
    case Int(i) => x == Int(i)
    case Flo(r) => x == Flo(r)
    case Char(c) => x == Char(c)
    case Nil => x.Nil?
    case Eof => x.Eof?
    case Sym(n) => x == Sym(n)
    case Builtin(p) => x == Builtin(p)
    case Pair(a, b) => x.Pair? && ValRel(w, a, x.car) && ValRel(w, b, x.cdr)
    case Proc(c) =>
      && x.Proc? && c.lam.Lambda? && c.env < |w.scopes| && c.env in w.beta
      && x.closure.cxt == Some(w.beta[c.env])
      && CompiledAs(w.scopes[c.env], c.lam, x.closure.irep)
  }

  ghost predicate ValsRel(w: World, vs: seq<S.SVal>, xs: seq<H.VVal>) {
    |vs| == |xs| && forall i :: 0 <= i < |vs| ==> ValRel(w, vs[i], xs[i])
  }

  ghost predicate Ext(w: World, w1: World) {
    w.scopes <= w1.scopes && forall f :: f in w.beta ==> f in w1.beta && w1.beta[f] == w.beta[f]
  }

  ghost predicate GlobalsRel(w: World, g: map<Name, Option<S.SVal>>, hg: map<Name, Option<H.VVal>>) {
    && g.Keys == hg.Keys
    && (forall x :: x in g ==> g[x].Some? == hg[x].Some?)
    && (forall x :: x in g && g[x].Some? ==> ValRel(w, g[x].value, hg[x].value))
    && (forall x :: Builtins.InlineName(x).Some? ==>
          x in g && g[x] == Some(Builtin(Builtins.InlineName(x).value)))
  }

  function UpContext(w: World, up: Option<nat>): Option<nat> {
    match up
    case None => None
    case Some(p) => if p in w.beta then Some(w.beta[p]) else None
  }

  /** Source frame `f` was made in the scope the world says, under a frame that owns a context. */
  ghost predicate FrameOk(w: World, frames: seq<S.Frame>, f: nat)
    requires f < |frames| == |w.scopes|
  {
    && frames[f].names == Names(w.scopes[f])
    && |frames[f].vals| == |frames[f].names|
    && A.CapturesOk(w.scopes[f])
    && match frames[f].up
       case None => w.scopes[f].up.None?
       case Some(p) => p < f && w.scopes[f].up == Some(w.scopes[p]) && p in w.beta
  }

  ghost predicate FramesOk(w: World, frames: seq<S.Frame>) {
    && |frames| == |w.scopes|
    && forall f :: 0 <= f < |frames| ==> FrameOk(w, frames, f)
  }

  /** The slot of the `i`-th captured variable of a scope. */
  function CaptureSlot(s: Scope, i: nat): nat
    requires i < |s.captures|
  {
    IndexOf(Names(s), s.captures[i])
  }

  /** `file` holds the values of the captured variables of frame `f`. */
  ghost predicate CapturesRel(w: World, frames: seq<S.Frame>, f: nat, file: seq<H.VVal>)
    requires f < |frames| == |w.scopes|
  {
    && |file| == |w.scopes[f].captures|
    && forall i :: 0 <= i < |file| ==>
         CaptureSlot(w.scopes[f], i) < |frames[f].vals| &&
         ValRel(w, frames[f].vals[CaptureSlot(w.scopes[f], i)], file[i])
  }

  ghost predicate ContextOk(w: World, frames: seq<S.Frame>, cxts: seq<H.Context>, f: nat)
    requires |frames| == |w.scopes| && f in w.beta
  {
    && f < |frames| && w.beta[f] < |cxts|
    && cxts[w.beta[f]].up == UpContext(w, frames[f].up)
    && CapturesRel(w, frames, f, cxts[w.beta[f]].vals)
  }

  ghost predicate ContextsOk(w: World, frames: seq<S.Frame>, cxts: seq<H.Context>)
    requires |frames| == |w.scopes|
  {
    && (forall f :: f in w.beta ==> ContextOk(w, frames, cxts, f))
    && (forall f, g :: f in w.beta && g in w.beta && w.beta[f] == w.beta[g] ==> f == g)
  }

  /** The machine's heap represents the store. */
  ghost predicate Base(w: World, s: S.Store, h: H.State) {
    FramesOk(w, s.frames) && ContextsOk(w, s.frames, h.cxts) && GlobalsRel(w, s.globals, h.globals)
  }

  ghost predicate SlotsRel(w: World, frames: seq<S.Frame>, f: nat, slots: seq<H.VVal>)
    requires f < |frames| == |w.scopes|
  {
    && |slots| == 1 + |frames[f].names| && |frames[f].vals| == |frames[f].names|
    && forall j | 0 <= j < |frames[f].names| ::
         IndexOf(frames[f].names, frames[f].names[j]) == j && frames[f].names[j] !in w.scopes[f].captures ==>
           ValRel(w, frames[f].vals[j], slots[1 + j])
  }

  /** A machine frame represents source frame `f`: uncaptured variables are in the slots, the
      captured ones in the capture area until the frame owns a context. */
  ghost predicate TopOk(w: World, frames: seq<S.Frame>, f: nat, fr: H.Frame)
    requires f < |frames| == |w.scopes|
  {
    && fr.irep.capturec == |w.scopes[f].captures|
    && SlotsRel(w, frames, f, fr.slots)
    && fr.up == UpContext(w, frames[f].up)
    && fr.cxt == (if f in w.beta then Some(w.beta[f]) else None)
    && (f !in w.beta ==> CapturesRel(w, frames, f, fr.file))
  }

  ghost predicate Inv(w: World, s: S.Store, h: H.State, f: nat) {
    Base(w, s, h) && f < |s.frames| && h.frames != [] && TopOk(w, s.frames, f, H.Top(h))
  }

  /** What running code of frame `f` leaves alone in the other frames. */
  ghost predicate KeepsFrame(w: World, s: S.Store, w1: World, s1: S.Store, g: nat)
    requires g < |s.frames| == |w.scopes| && |s.frames| <= |s1.frames|
  {
    && (g in w1.beta <==> g in w.beta)
    && |s1.frames[g].vals| == |s.frames[g].vals|
    && forall j | 0 <= j < |s.frames[g].vals| && j < |s.frames[g].names| ::
         g !in w.beta || s.frames[g].names[j] !in w.scopes[g].captures ==>
           s1.frames[g].vals[j] == s.frames[g].vals[j]
  }

  ghost predicate Keeps(w: World, s: S.Store, w1: World, s1: S.Store, except: set<nat>) {
    && |s.frames| == |w.scopes| && |s.frames| <= |s1.frames|
    && (forall g :: 0 <= g < |s.frames| ==>
          s1.frames[g].names == s.frames[g].names && s1.frames[g].up == s.frames[g].up)
    && (forall g :: 0 <= g < |s.frames| && g !in except ==> KeepsFrame(w, s, w1, s1, g))
  }

  // ---------- values ----------

  lemma {:induction false} InjectRel(w: World, d: Datum)
    ensures ValRel(w, Inject(d), Inject(d))
  {
    match d
    case DPair(a, b) => InjectRel(w, a); InjectRel(w, b);
    case _ =>
  }

  lemma {:induction false} ValRelExt(w: World, w1: World, v: S.SVal, x: H.VVal)
    requires Ext(w, w1) && ValRel(w, v, x)
    ensures ValRel(w1, v, x)
    decreases v
  {
    match v
    case Pair(a, b) => ValRelExt(w, w1, a, x.car); ValRelExt(w, w1, b, x.cdr);
    case _ =>
  }

  lemma ValsRelExt(w: World, w1: World, vs: seq<S.SVal>, xs: seq<H.VVal>)
    requires Ext(w, w1) && ValsRel(w, vs, xs)
    ensures ValsRel(w1, vs, xs)
  {
    forall i | 0 <= i < |vs| ensures ValRel(w1, vs[i], xs[i]) { ValRelExt(w, w1, vs[i], xs[i]); }
  }

  lemma {:induction false} ListRel(w: World, vs: seq<S.SVal>, xs: seq<H.VVal>)
    requires ValsRel(w, vs, xs)
    ensures ValRel(w, S.ListOf(vs), S.ListOf(xs))
    decreases vs
  {
    if vs != [] { ListRel(w, vs[1..], xs[1..]); }
  }

  // ---------- builtins ----------

  ghost predicate ResultRel(w: World, r: Option<S.SVal>, x: Option<H.VVal>) {
    r.Some? == x.Some? && (r.Some? ==> ValRel(w, r.value, x.value))
  }

  lemma {:induction false} FoldRel(w: World, p: Prim, a: S.SVal, b: H.VVal, vs: seq<S.SVal>, xs: seq<H.VVal>)
    requires ValRel(w, a, b) && ValsRel(w, vs, xs)
    ensures ResultRel(w, Builtins.FoldArith(p, a, vs), Builtins.FoldArith(p, b, xs))
    decreases vs
  {
    if vs != [] {
      var r, x := Builtins.Arith(p, a, vs[0]), Builtins.Arith(p, b, xs[0]);
      assert ValRel(w, vs[0], xs[0]);
      if r.Some? { FoldRel(w, p, r.value, x.value, vs[1..], xs[1..]); }
    }
  }

  lemma {:induction false} ChainRel(w: World, p: Prim, vs: seq<S.SVal>, xs: seq<H.VVal>)
    requires ValsRel(w, vs, xs)
    ensures ResultRel(w, Builtins.Chain(p, vs), Builtins.Chain(p, xs))
    decreases vs
  {
    if |vs| >= 2 {
      assert ValRel(w, vs[0], xs[0]) && ValRel(w, vs[1], xs[1]);
      ChainRel(w, p, vs[1..], xs[1..]);
    }
  }

  /** Builtins cannot tell related arguments apart. */
  lemma ApplyRel(w: World, p: Prim, vs: seq<S.SVal>, xs: seq<H.VVal>)
    requires ValsRel(w, vs, xs)
    ensures ResultRel(w, Builtins.Apply(p, vs), Builtins.Apply(p, xs))
  {
    if vs != [] {
      assert ValRel(w, vs[0], xs[0]);
      FoldRel(w, p, vs[0], xs[0], vs[1..], xs[1..]);
    }
    if |vs| == 2 { assert ValRel(w, vs[1], xs[1]); }
    ChainRel(w, p, vs, xs);
  }
}
