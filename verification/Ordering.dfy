/** Programs whose text shows that no local variable is used before it has a value. */
module Ordering {
  import opened Util
  import opened Syntax
  import opened CoreForms
  import Merging
  import Builtins
  import Redefinition
  import S = Source
  import D = Direct

  // ---------- the text ----------

  function NameSet(xs: seq<Name>): set<Name> {
    set x | x in xs
  }

  function Formals(ps: seq<Name>, r: Option<Name>): set<Name> {
    NameSet(ps + Merging.RestNames(r))
  }

  /** The variables whose use without a value is looked for: those read, and those assigned. */
  datatype Watch = Watch(read: set<Name>, write: set<Name>)

  /** The watched uses in `e` of variables that are not bound by a lambda in it. */
  function Free(e: Core, k: Watch): set<Name>
    decreases e, 1
  {
    match e
    case CQuote(_) => {}
    case CVar(x) => {x} * k.read
    case CSet(x, e1) => {x} * k.write + Free(e1, k)
    case CIf(c, t, f) => Free(c, k) + Free(t, k) + Free(f, k)
    case CBegin(a, b) => Free(a, k) + Free(b, k)
    case CDefine(_, e1) => Free(e1, k)
    case CLambda(ps, r, b) => Free(b, k) - Formals(ps, r) - NameSet(Defs(b))
    case CCall(fn, args) => Free(fn, k) + FreeAll(args, k)
  }

  function FreeAll(es: seq<Core>, k: Watch): set<Name>
    decreases es, 0
  {
    if es == [] then {} else Free(es[0], k) + FreeAll(es[1..], k)
  }

  /** What the procedures that `e` makes use from the code around them. */
  function Inner(e: Core, k: Watch): set<Name>
    decreases e, 1
  {
    match e
    case CQuote(_) | CVar(_) => {}
    case CSet(_, e1) => Inner(e1, k)
    case CIf(c, t, f) => Inner(c, k) + Inner(t, k) + Inner(f, k)
    case CBegin(a, b) => Inner(a, k) + Inner(b, k)
    case CDefine(_, e1) => Inner(e1, k)
    case CLambda(_, _, _) => Free(e, k)
    case CCall(fn, args) => Inner(fn, k) + InnerAll(args, k)
  }

  function InnerAll(es: seq<Core>, k: Watch): set<Name>
    decreases es, 0
  {
    if es == [] then {} else Inner(es[0], k) + InnerAll(es[1..], k)
  }

  /** Variables are defined before they are used: none is mentioned while it is among `left`, the variables of this
      body that may have no value, and nothing is called while one of `left` is used by a procedure made before; such
      procedures use `made`. The same holds in the body of every lambda, for the variables that it defines. */
  predicate Ordered(e: Core, left: set<Name>, made: set<Name>, k: Watch)
    decreases e, 1
  {
    match e
    case CQuote(_) => true
    case CVar(x) => x in k.read ==> x !in left
    case CSet(x, e1) => Ordered(e1, left, made, k) && (x in k.write ==> x !in Redefinition.Left(e1, left))
    case CIf(c, t, f) =>
      && Ordered(c, left, made, k)
      && Ordered(t, Redefinition.Left(c, left), made + Inner(c, k), k)
      && Ordered(f, Redefinition.Left(c, left), made + Inner(c, k), k)
    case CBegin(a, b) => Ordered(a, left, made, k) && Ordered(b, Redefinition.Left(a, left), made + Inner(a, k), k)
    case CDefine(_, e1) => Ordered(e1, left, made, k)
    case CLambda(_, _, b) => BodyOrdered(b, k)
    case CCall(fn, args) =>
      && Ordered(fn, left, made, k) && AllOrdered(args, Redefinition.Left(fn, left), made + Inner(fn, k), k)
      && Redefinition.LeftAll(args, Redefinition.Left(fn, left)) !! (made + Inner(fn, k) + InnerAll(args, k))
  }

  predicate BodyOrdered(b: Core, k: Watch)
    decreases b, 2
  {
    Ordered(b, NameSet(Defs(b)), {}, k) && Redefinition.Left(b, NameSet(Defs(b))) !! Inner(b, k)
  }

  predicate AllOrdered(es: seq<Core>, left: set<Name>, made: set<Name>, k: Watch)
    decreases es, 0
  {
    es != [] ==> Ordered(es[0], left, made, k) && AllOrdered(es[1..], Redefinition.Left(es[0], left),
                                                             made + Inner(es[0], k), k)
  }

  /** Nothing is assigned, and no lambda has definitions in its body. */
  predicate Plain(e: Core)
    decreases e, 1
  {
    match e
    case CQuote(_) | CVar(_) => true
    case CSet(_, _) => false
    case CIf(c, t, f) => Plain(c) && Plain(t) && Plain(f)
    case CBegin(a, b) => Plain(a) && Plain(b)
    case CDefine(_, e1) => Plain(e1)
    case CLambda(_, _, b) => Plain(b) && Defs(b) == []
    case CCall(fn, args) => Plain(fn) && AllPlain(args)
  }

  predicate AllPlain(es: seq<Core>)
    decreases es, 0
  {
    es != [] ==> Plain(es[0]) && AllPlain(es[1..])
  }

  lemma {:induction false} PlainReads(e: Core, k: Watch)
    requires Plain(e)
    ensures Free(e, k) <= k.read && Inner(e, k) <= k.read
    decreases e, 1
  {
    match e
    case CQuote(_) | CVar(_) =>
    case CIf(c, t, f) =>
      PlainReads(c, k);
      PlainReads(t, k);
      PlainReads(f, k);
    case CBegin(a, b) =>
      PlainReads(a, k);
      PlainReads(b, k);
    case CDefine(_, e1) => PlainReads(e1, k);
    case CLambda(_, _, b) => PlainReads(b, k);
    case CCall(fn, args) =>
      PlainReads(fn, k);
      AllPlainReads(args, k);
  }

  lemma {:induction false} AllPlainReads(es: seq<Core>, k: Watch)
    requires AllPlain(es)
    ensures FreeAll(es, k) <= k.read && InnerAll(es, k) <= k.read
    decreases es, 0
  {
    if es != [] {
      PlainReads(es[0], k);
      AllPlainReads(es[1..], k);
    }
  }

  /** Such code is in order: no variable that it reads can be without a value. */
  lemma {:induction false} PlainOrdered(e: Core, left: set<Name>, made: set<Name>, k: Watch)
    requires Plain(e) && left !! k.read && made <= k.read
    ensures Ordered(e, left, made, k)
    decreases e, 1
  {
    hide Free, Inner, Redefinition.Left;
    match e
    case CQuote(_) | CVar(_) =>
    case CIf(c, t, f) =>
      PlainReads(c, k);
      PlainOrdered(c, left, made, k);
      PlainOrdered(t, Redefinition.Left(c, left), made + Inner(c, k), k);
      PlainOrdered(f, Redefinition.Left(c, left), made + Inner(c, k), k);
    case CBegin(a, b) =>
      PlainReads(a, k);
      PlainOrdered(a, left, made, k);
      PlainOrdered(b, Redefinition.Left(a, left), made + Inner(a, k), k);
    case CDefine(_, e1) => PlainOrdered(e1, left, made, k);
    case CLambda(_, _, b) =>
      assert NameSet(Defs(b)) == {};
      PlainOrdered(b, {}, {}, k);
    case CCall(fn, args) =>
      PlainReads(fn, k);
      AllPlainReads(args, k);
      PlainOrdered(fn, left, made, k);
      AllPlainOrdered(args, Redefinition.Left(fn, left), made + Inner(fn, k), k);
  }

  lemma {:induction false} AllPlainOrdered(es: seq<Core>, left: set<Name>, made: set<Name>, k: Watch)
    requires AllPlain(es) && left !! k.read && made <= k.read
    ensures AllOrdered(es, left, made, k)
    decreases es, 0
  {
    if es != [] {
      PlainReads(es[0], k);
      PlainOrdered(es[0], left, made, k);
      AllPlainOrdered(es[1..], Redefinition.Left(es[0], left), made + Inner(es[0], k), k);
    }
  }

  /** Two procedures may call each other, whichever is defined first, when both are defined before one is called. */
  lemma MutualOrdered(f: Name, g: Name, x: Name, y: Name, d: Datum, k: Watch)
    requires f != g
    ensures BodyOrdered(CBegin(CDefine(f, CLambda([x], None, CCall(CVar(g), [CVar(x)]))),
                               CBegin(CDefine(g, CLambda([y], None, CCall(CVar(f), [CVar(y)]))),
                                      CCall(CVar(f), [CQuote(d)]))), k)
  {
    var l1, l2 := CLambda([x], None, CCall(CVar(g), [CVar(x)])), CLambda([y], None, CCall(CVar(f), [CVar(y)]));
    var call := CCall(CVar(f), [CQuote(d)]);
    var def1, def2 := CDefine(f, l1), CDefine(g, l2);
    PlainCall(g, CVar(x), {}, {}, k);
    PlainCall(f, CVar(y), {}, {}, k);
    PlainCall(f, CQuote(d), {}, Inner(def1, k) + Inner(def2, k), k);
    MutualDefs(f, g, l1, l2, call);
    hide Defs, Redefinition.Left, Free, BodyOrdered;
    assert Ordered(l1, {f, g}, {}, k) && Ordered(l2, {g}, Inner(def1, k), k) by { LambdaOrdered(l1, l2, k); }
    assert Ordered(def1, {f, g}, {}, k) && Ordered(def2, {g}, Inner(def1, k), k);
    assert {} + Inner(def1, k) == Inner(def1, k);
    assert Ordered(CBegin(def2, call), {g}, Inner(def1, k), k);
    BodyIs(CBegin(def1, CBegin(def2, call)), {f, g}, k);
  }

  lemma LambdaOrdered(l1: Core, l2: Core, k: Watch)
    requires l1.CLambda? && l2.CLambda? && BodyOrdered(l1.body, k) && BodyOrdered(l2.body, k)
    ensures forall left, made :: Ordered(l1, left, made, k) && Ordered(l2, left, made, k)
  {
    hide BodyOrdered;
  }

  lemma BodyIs(b: Core, ds: set<Name>, k: Watch)
    requires NameSet(Defs(b)) == ds && Ordered(b, ds, {}, k) && Redefinition.Left(b, ds) == {}
    ensures BodyOrdered(b, k)
  {
    hide Ordered, Defs, Redefinition.Left, Inner;
  }

  lemma MutualDefs(f: Name, g: Name, l1: Core, l2: Core, call: Core)
    requires f != g && l1.CLambda? && l2.CLambda? && Defs(call) == [] && Redefinition.Left(call, {}) == {}
    ensures var def1, def2 := CDefine(f, l1), CDefine(g, l2);
      && Redefinition.Left(def1, {f, g}) == {g} && Redefinition.Left(def2, {g}) == {}
      && Redefinition.Left(CBegin(def1, CBegin(def2, call)), {f, g}) == {}
      && NameSet(Defs(CBegin(def1, CBegin(def2, call)))) == {f, g}
  {
    var def1, def2 := CDefine(f, l1), CDefine(g, l2);
    var rest := CBegin(def2, call);
    assert Defs(def1) == [f] && Defs(def2) == [g] && Defs(rest) == [g] + [];
    assert Defs(CBegin(def1, rest)) == [f, g];
    assert Redefinition.Left(rest, {g}) == {};
  }

  /** A call with one plain argument, when no variable is without a value. */
  lemma PlainCall(f: Name, a: Core, left: set<Name>, made: set<Name>, k: Watch)
    requires (a.CVar? || a.CQuote?) && left == {}
    ensures var c := CCall(CVar(f), [a]);
      && Defs(c) == [] && Redefinition.Left(c, left) == {} && Inner(c, k) == {}
      && Ordered(c, left, made, k) && BodyOrdered(c, k)
  {
    var c := CCall(CVar(f), [a]);
    var none: set<Name> := {};
    assert [a][1..] == [];
    assert Defs(a) == [] && DefsAll([]) == [] && DefsAll([a]) == [] + DefsAll([]) && Defs(c) == [] + DefsAll([a]);
    assert Redefinition.LeftAll([], {}) == {} && Redefinition.LeftAll([a], {}) == {};
    assert InnerAll([], k) == {} && InnerAll([a], k) == {};
    assert Inner(a, k) == {} && Inner(CVar(f), k) == {} && Redefinition.Left(CVar(f), {}) == {};
    forall m: set<Name> ensures Ordered(c, {}, m, k) {
      assert m + none == m;
      assert Ordered(a, {}, m, k) && AllOrdered([], {}, m, k) && AllOrdered([a], {}, m, k);
    }
    assert Defs(c) == [];
    assert NameSet(Defs(c)) == {};
  }

  // ---------- the memory ----------

  /** The variable has a value where code of frame `g` runs. */
  ghost predicate Sees(s: D.Store, g: nat, x: Name) {
    D.Lookup(s, g, x).Some?
  }

  /** `vis` gives the variables that the procedures made in each frame use, and `sc` those of the code that runs in
      the frame `env`; only those in `left` of this frame may be without a value. */
  ghost predicate Seen(s: D.Store, vis: seq<set<Name>>, env: nat, sc: set<Name>, left: set<Name>) {
    && (forall g, x :: 0 <= g < |vis| && x in vis[g] && (g == env ==> x !in left) ==> Sees(s, g, x))
    && (forall x :: x in sc && x !in left ==> Sees(s, env, x))
  }

  ghost predicate ValOk(v: D.DVal, vis: seq<set<Name>>, k: Watch)
    decreases v
  {
    match v
    case Pair(a, b) => ValOk(a, vis, k) && ValOk(b, vis, k)
    case Proc(c) => c.env < |vis| && Free(c.lam, k) <= vis[c.env] && (c.lam.CLambda? ==> BodyOrdered(c.lam.body, k))
    case _ => true
  }

  ghost predicate ValsOk(vs: seq<D.DVal>, vis: seq<set<Name>>, k: Watch) {
    forall i :: 0 <= i < |vs| ==> ValOk(vs[i], vis, k)
  }

  ghost predicate Fine(s: D.Store, vis: seq<set<Name>>, k: Watch) {
    && |vis| == |s.frames|
    && (forall g, x :: 0 <= g < |s.frames| && x in s.frames[g].vars ==> ValOk(s.frames[g].vars[x], vis, k))
    && (forall x :: x in s.globals ==> ValOk(s.globals[x], vis, k))
  }

  /** Variables come, and do not go. */
  ghost predicate More(s: D.Store, s1: D.Store) {
    && |s.frames| <= |s1.frames| && s.globals.Keys <= s1.globals.Keys
    && forall g :: 0 <= g < |s.frames| ==>
      s1.frames[g].up == s.frames[g].up
      && s.frames[g].vars.Keys <= s1.frames[g].vars.Keys
  }

  /** Frames come, and only in `env` procedures may have been made, which use `made`. */
  ghost predicate VisMore(vis: seq<set<Name>>, vis1: seq<set<Name>>, env: nat, made: set<Name>) {
    && |vis| <= |vis1|
    && forall g :: 0 <= g < |vis| ==> vis[g] <= vis1[g] <= vis[g] + (if g == env then made else {})
  }

  lemma {:induction false} FindMore(s: D.Store, s1: D.Store, g: nat, x: Name)
    requires More(s, s1) && D.Find(s.frames, g, x).Some?
    ensures D.Find(s1.frames, g, x).Some?
    decreases g
  {
    if x !in s.frames[g].vars && x !in s1.frames[g].vars { FindMore(s, s1, s.frames[g].up.value, x); }
  }

  lemma SeesMore(s: D.Store, s1: D.Store, g: nat, x: Name)
    requires More(s, s1) && Sees(s, g, x)
    ensures Sees(s1, g, x)
  {
    if D.Find(s.frames, g, x).Some? { FindMore(s, s1, g, x); }
    hide D.Find;
  }

  lemma SeenMore(s: D.Store, s1: D.Store, vis: seq<set<Name>>, env: nat, sc: set<Name>, left: set<Name>,
                 left1: set<Name>)
    requires More(s, s1) && Seen(s, vis, env, sc, left)
    requires forall x :: x in left && x !in left1 ==> Sees(s1, env, x)
    ensures Seen(s1, vis, env, sc, left1)
  {
    hide Sees, More;
    forall g, x | 0 <= g < |vis| && x in vis[g] && (g == env ==> x !in left1) ensures Sees(s1, g, x) {
      if g != env || x !in left { SeesMore(s, s1, g, x); }
    }
    forall x | x in sc && x !in left1 ensures Sees(s1, env, x) {
      if x !in left { SeesMore(s, s1, env, x); }
    }
  }

  /** Nothing that a procedure uses is without a value: then the same holds for every frame. */
  lemma SeenAll(s: D.Store, vis: seq<set<Name>>, env: nat, sc: set<Name>, left: set<Name>)
    requires Seen(s, vis, env, sc, left) && (env < |vis| ==> vis[env] !! left)
    ensures Seen(s, vis, 0, {}, {})
  {
    hide Sees;
  }

  /** Back from a call. */
  lemma SeenAgain(s: D.Store, s1: D.Store, vis: seq<set<Name>>, vis1: seq<set<Name>>, env: nat, sc: set<Name>,
                  left: set<Name>)
    requires Seen(s, vis, env, sc, left) && Seen(s1, vis1, 0, {}, {}) && More(s, s1)
    ensures Seen(s1, vis1, env, sc, left)
  {
    hide Sees, More;
    forall x | x in sc && x !in left ensures Sees(s1, env, x) { SeesMore(s, s1, env, x); }
  }

  lemma MoreMore(s: D.Store, s1: D.Store, s2: D.Store)
    requires More(s, s1) && More(s1, s2)
    ensures More(s, s2)
  {
  }

  // ---------- values ----------

  lemma {:induction false} ValMore(v: D.DVal, vis: seq<set<Name>>, vis1: seq<set<Name>>, env: nat,
                                   made: set<Name>, k: Watch)
    requires VisMore(vis, vis1, env, made) && ValOk(v, vis, k)
    ensures ValOk(v, vis1, k)
    decreases v
  {
    hide Free, BodyOrdered;
    match v
    case Pair(a, b) =>
      ValMore(a, vis, vis1, env, made, k);
      ValMore(b, vis, vis1, env, made, k);
    case _ =>
  }

  lemma ValsMore(vs: seq<D.DVal>, vis: seq<set<Name>>, vis1: seq<set<Name>>, env: nat, made: set<Name>, k: Watch)
    requires VisMore(vis, vis1, env, made) && ValsOk(vs, vis, k)
    ensures ValsOk(vs, vis1, k)
  {
    hide ValOk, VisMore;
    forall i | 0 <= i < |vs| ensures ValOk(vs[i], vis1, k) { ValMore(vs[i], vis, vis1, env, made, k); }
  }

  lemma FineMore(s: D.Store, vis: seq<set<Name>>, vis1: seq<set<Name>>, env: nat, made: set<Name>, k: Watch)
    requires VisMore(vis, vis1, env, made) && |vis1| == |vis| && Fine(s, vis, k)
    ensures Fine(s, vis1, k)
  {
    hide ValOk, VisMore;
    forall g, x | 0 <= g < |s.frames| && x in s.frames[g].vars ensures ValOk(s.frames[g].vars[x], vis1, k) {
      ValMore(s.frames[g].vars[x], vis, vis1, env, made, k);
    }
    forall x | x in s.globals ensures ValOk(s.globals[x], vis1, k) { ValMore(s.globals[x], vis, vis1, env, made, k); }
  }

  lemma {:induction false} DatumOk(d: Datum, vis: seq<set<Name>>, k: Watch)
    ensures ValOk(Inject(d), vis, k)
    decreases d
  {
    if d.DPair? {
      DatumOk(d.car, vis, k);
      DatumOk(d.cdr, vis, k);
    }
  }

  lemma {:induction false} ListOk(vs: seq<D.DVal>, vis: seq<set<Name>>, k: Watch)
    requires ValsOk(vs, vis, k)
    ensures ValOk(S.ListOf(vs), vis, k)
    decreases vs
  {
    hide Free, BodyOrdered;
    if vs != [] {
      assert ValOk(vs[0], vis, k);
      ListOk(vs[1..], vis, k);
    }
  }

  lemma {:induction false} FoldFlat(p: Prim, acc: D.DVal, vs: seq<D.DVal>)
    requires vs != [] && Builtins.FoldArith(p, acc, vs).Some?
    ensures Builtins.FoldArith(p, acc, vs).value.Int? || Builtins.FoldArith(p, acc, vs).value.Flo?
    decreases vs
  {
    if |vs| > 1 { FoldFlat(p, Builtins.Arith(p, acc, vs[0]).value, vs[1..]); }
  }

  lemma {:induction false} ChainFlat(p: Prim, vs: seq<D.DVal>)
    requires Builtins.Chain(p, vs).Some?
    ensures Builtins.Chain(p, vs).value.Bool?
    decreases vs
  {
    if |vs| >= 2 && Builtins.Compare(p, vs[0], vs[1]) == Some(true) { ChainFlat(p, vs[1..]); }
  }

  /** Native procedures make no procedures. */
  lemma ApplyOk(p: Prim, vs: seq<D.DVal>, vis: seq<set<Name>>, k: Watch)
    requires ValsOk(vs, vis, k) && Builtins.Apply(p, vs).Some?
    ensures ValOk(Builtins.Apply(p, vs).value, vis, k)
  {
    hide Free, BodyOrdered, Builtins.Arith, Builtins.Compare, Builtins.FoldArith, Builtins.Chain;
    if vs != [] { assert ValOk(vs[0], vis, k); }
    if |vs| == 2 { assert ValOk(vs[1], vis, k); }
    if p.NumEq? || p.NumLt? || p.NumLe? || p.NumGt? || p.NumGe? || p.Add? || p.Mul? || p.Sub? { ApplyFlat(p, vs); }
  }

  lemma ApplyFlat(p: Prim, vs: seq<D.DVal>)
    requires Builtins.Apply(p, vs).Some?
    requires p.NumEq? || p.NumLt? || p.NumLe? || p.NumGt? || p.NumGe? || p.Add? || p.Mul? || p.Sub?
    ensures var v := Builtins.Apply(p, vs).value; v.Bool? || v.Int? || v.Flo? || (|vs| == 1 && v == vs[0])
  {
    if |vs| > 1 && (p.Add? || p.Mul? || p.Sub?) { FoldFlat(p, vs[0], vs[1..]); }
    if p.NumEq? || p.NumLt? || p.NumLe? || p.NumGt? || p.NumGe? { ChainFlat(p, vs); }
  }

  // ---------- the invariant ----------

  lemma SeenBy(s: D.Store, vis: seq<set<Name>>, env: nat, sc: set<Name>, left: set<Name>, x: Name)
    requires Seen(s, vis, env, sc, left) && x in sc && x !in left
    ensures D.Lookup(s, env, x).Some? && forall v :: D.Update(s, env, x, v).Some?
  {
    assert Sees(s, env, x);
    hide D.Find;
  }

  lemma LookupOk(s: D.Store, vis: seq<set<Name>>, k: Watch, env: nat, x: Name)
    requires Fine(s, vis, k) && D.Lookup(s, env, x).Some?
    ensures ValOk(D.Lookup(s, env, x).value, vis, k)
  {
    hide ValOk;
  }

  lemma WithVarFine(s: D.Store, vis: seq<set<Name>>, k: Watch, g: nat, x: Name, v: D.DVal)
    requires Fine(s, vis, k) && ValOk(v, vis, k) && g < |s.frames|
    ensures Fine(D.WithVar(s, g, x, v), vis, k) && More(s, D.WithVar(s, g, x, v))
  {
    hide ValOk;
  }

  lemma WithGlobalFine(s: D.Store, vis: seq<set<Name>>, k: Watch, x: Name, v: D.DVal)
    requires Fine(s, vis, k) && ValOk(v, vis, k)
    ensures Fine(D.WithGlobal(s, x, v), vis, k) && More(s, D.WithGlobal(s, x, v))
  {
    hide ValOk;
  }

  lemma UpdateFine(s: D.Store, vis: seq<set<Name>>, k: Watch, env: nat, x: Name, v: D.DVal, sc: set<Name>,
                   left: set<Name>)
    requires Fine(s, vis, k) && ValOk(v, vis, k) && Seen(s, vis, env, sc, left) && D.Update(s, env, x, v).Some?
    ensures var s1 := D.Update(s, env, x, v).value; Fine(s1, vis, k) && Seen(s1, vis, env, sc, left) && More(s, s1)
  {
    hide ValOk, Sees, Seen, Fine, More, D.Find, D.WithVar, D.WithGlobal;
    var g := D.Find(s.frames, env, x);
    if g.Some? { WithVarFine(s, vis, k, g.value, x, v); } else { WithGlobalFine(s, vis, k, x, v); }
    SeenMore(s, D.Update(s, env, x, v).value, vis, env, sc, left, left);
  }

  lemma BindFine(s: D.Store, vis: seq<set<Name>>, k: Watch, env: nat, x: Name, v: D.DVal, sc: set<Name>,
                 left: set<Name>)
    requires Fine(s, vis, k) && ValOk(v, vis, k) && Seen(s, vis, env, sc, left) && env < |s.frames|
    ensures var s1 := D.Bind(s, env, x, v); Fine(s1, vis, k) && Seen(s1, vis, env, sc, left - {x}) && More(s, s1)
  {
    hide ValOk, Seen, Fine, More, Sees;
    if s.frames[env].up.Some? { WithVarFine(s, vis, k, env, x, v); } else { WithGlobalFine(s, vis, k, x, v); }
    SeesBound(s, env, x, v);
    SeenMore(s, D.Bind(s, env, x, v), vis, env, sc, left, left - {x});
  }

  lemma SeesBound(s: D.Store, env: nat, x: Name, v: D.DVal)
    requires env < |s.frames|
    ensures Sees(D.Bind(s, env, x, v), env, x)
  {
  }

  /** A procedure is made. */
  lemma MakeFine(s: D.Store, vis: seq<set<Name>>, k: Watch, env: nat, e: Core, sc: set<Name>, left: set<Name>)
    requires Fine(s, vis, k) && Seen(s, vis, env, sc, left) && env < |vis|
    requires e.CLambda? && Free(e, k) <= sc && BodyOrdered(e.body, k)
    ensures var vis1 := vis[env := vis[env] + Free(e, k)];
            VisMore(vis, vis1, env, Free(e, k)) && Fine(s, vis1, k) && Seen(s, vis1, env, sc, left)
            && ValOk(Proc(D.Closure(e, env)), vis1, k)
  {
    hide Sees, Free, BodyOrdered, Fine;
    FineMore(s, vis, vis[env := vis[env] + Free(e, k)], env, Free(e, k), k);
  }

  lemma {:induction false} ParamsOk(ps: seq<Name>, vs: seq<D.DVal>, vis: seq<set<Name>>, k: Watch)
    requires |ps| <= |vs| && ValsOk(vs, vis, k)
    ensures D.Params(ps, vs).Keys == NameSet(ps)
    ensures forall x :: x in D.Params(ps, vs) ==> ValOk(D.Params(ps, vs)[x], vis, k)
    decreases ps
  {
    hide ValOk;
    if ps != [] {
      ParamsOk(ps[1..], vs[1..], vis, k);
      assert ps == [ps[0]] + ps[1..];
    }
  }

  lemma NewFrameOk(c: D.Closure, vs: seq<D.DVal>, vis: seq<set<Name>>, k: Watch)
    requires c.lam.CLambda? && S.ArityOk(|c.lam.params|, c.lam.rest.Some?, |vs|) && ValsOk(vs, vis, k)
    ensures var f := D.NewFrame(c.lam, c.env, vs);
            f.up == Some(c.env) && f.vars.Keys == Formals(c.lam.params, c.lam.rest)
            && forall x :: x in f.vars ==> ValOk(f.vars[x], vis, k)
  {
    hide ValOk;
    ParamsOk(c.lam.params, vs, vis, k);
    assert ValsOk(vs[|c.lam.params|..], vis, k);
    ListOk(vs[|c.lam.params|..], vis, k);
  }

  /** What the body of a lambda may use. */
  function Scope(lam: Core, k: Watch): set<Name>
    requires lam.CLambda?
  {
    Free(lam, k) + Formals(lam.params, lam.rest) + NameSet(Defs(lam.body))
  }

  lemma FrameFine(s: D.Store, vis: seq<set<Name>>, k: Watch, c: D.Closure, vs: seq<D.DVal>)
    requires Fine(s, vis, k) && Seen(s, vis, 0, {}, {}) && ValOk(Proc(c), vis, k) && ValsOk(vs, vis, k)
    requires c.lam.CLambda? && S.ArityOk(|c.lam.params|, c.lam.rest.Some?, |vs|)
    ensures var s1, vis1 := s.(frames := s.frames + [D.NewFrame(c.lam, c.env, vs)]), vis + [{}];
            Fine(s1, vis1, k) && Seen(s1, vis1, |s.frames|, Scope(c.lam, k), NameSet(Defs(c.lam.body))) && More(s, s1)
  {
    hide Sees, D.NewFrame, Free, BodyOrdered;
    var s1, vis1 := s.(frames := s.frames + [D.NewFrame(c.lam, c.env, vs)]), vis + [{}];
    assert VisMore(vis, vis1, 0, {});
    ValsMore(vs, vis, vis1, 0, {}, k);
    NewFrameOk(c, vs, vis1, k);
    FrameVals(s, s1, vis, vis1, k);
    forall g, x | 0 <= g < |vis1| && x in vis1[g] ensures Sees(s1, g, x) {
      assert x in vis[g];
      SeesMore(s, s1, g, x);
    }
    forall x | x in Scope(c.lam, k) && x !in NameSet(Defs(c.lam.body)) ensures Sees(s1, |s.frames|, x) {
      if x in Free(c.lam, k) {
        assert x in vis[c.env];
        SeesMore(s, s1, c.env, x);
      }
      SeesInside(s1, |s.frames|, c.env, x);
    }
  }

  lemma FrameVals(s: D.Store, s1: D.Store, vis: seq<set<Name>>, vis1: seq<set<Name>>, k: Watch)
    requires Fine(s, vis, k) && VisMore(vis, vis1, 0, {}) && |vis1| == |s1.frames| == |s.frames| + 1
    requires s1.globals == s.globals && s1.frames[..|s.frames|] == s.frames
    requires forall x :: x in s1.frames[|s.frames|].vars ==> ValOk(s1.frames[|s.frames|].vars[x], vis1, k)
    ensures Fine(s1, vis1, k)
  {
    hide ValOk, VisMore;
    forall g, x | 0 <= g < |s1.frames| && x in s1.frames[g].vars ensures ValOk(s1.frames[g].vars[x], vis1, k) {
      if g < |s.frames| {
        assert s1.frames[g] == s.frames[g];
        ValMore(s.frames[g].vars[x], vis, vis1, 0, {}, k);
      }
    }
    forall x | x in s1.globals ensures ValOk(s1.globals[x], vis1, k) { ValMore(s.globals[x], vis, vis1, 0, {}, k); }
  }

  lemma SeesInside(s: D.Store, g: nat, p: nat, x: Name)
    requires p < g < |s.frames| && s.frames[g].up == Some(p) && (x in s.frames[g].vars || Sees(s, p, x))
    ensures Sees(s, g, x)
  {
  }

  /** No watched variable is without a value when it is used. */
  predicate Unwatched(x: Name, write: bool, k: Watch) {
    if write then x !in k.write else x !in k.read
  }

  /** What evaluation in the frame `env` leaves behind; it may have made procedures that use `made`. */
  ghost predicate Leaves(o: D.Outcome, s: D.Store, vis: seq<set<Name>>, vis1: seq<set<Name>>, env: nat, sc: set<Name>,
                         left: set<Name>, made: set<Name>, k: Watch)
  {
    && (o.Ok? ==>
        VisMore(vis, vis1, env, made) && Fine(o.s, vis1, k) && ValOk(o.v, vis1, k)
        && Seen(o.s, vis1, env, sc, left) && More(s, o.s))
    && (o.Unbound? ==> Unwatched(o.x, o.write, k))
  }

  ghost predicate LeavesArgs(o: D.ArgsOutcome, s: D.Store, vis: seq<set<Name>>, vis1: seq<set<Name>>, env: nat,
                             sc: set<Name>, left: set<Name>, made: set<Name>, k: Watch)
  {
    && (o.ArgsOk? ==> VisMore(vis, vis1, env, made) && Fine(o.s, vis1, k) && ValsOk(o.vs, vis1, k)
                      && Seen(o.s, vis1, env, sc, left) && More(s, o.s))
    && (o.ArgsUnbound? ==> Unwatched(o.x, o.write, k))
  }

  /** Code may run: what it uses has a value, or is defined before it is used. */
  ghost predicate MayRun(s: D.Store, vis: seq<set<Name>>, env: nat, sc: set<Name>, left: set<Name>,
                         made: set<Name>, k: Watch) {
    && Fine(s, vis, k) && Seen(s, vis, env, sc, left) && env < |vis| && vis[env] * left <= made
  }

  /** It may run on after one part of it. */
  lemma RunOn(s: D.Store, vis: seq<set<Name>>, env: nat, sc: set<Name>, left: set<Name>, made: set<Name>, k: Watch,
              s1: D.Store, vis1: seq<set<Name>>, left1: set<Name>, more: set<Name>)
    requires MayRun(s, vis, env, sc, left, made, k) && left1 <= left
    requires VisMore(vis, vis1, env, more) && Fine(s1, vis1, k) && Seen(s1, vis1, env, sc, left1)
    ensures MayRun(s1, vis1, env, sc, left1, made + more, k)
  {
    hide Fine, Seen;
  }

  lemma VisJoin(vis: seq<set<Name>>, vis1: seq<set<Name>>, vis2: seq<set<Name>>, env: nat, a: set<Name>, b: set<Name>,
                c: set<Name>)
    requires VisMore(vis, vis1, env, a) && VisMore(vis1, vis2, env, b) && a + b <= c
    ensures VisMore(vis, vis2, env, c)
  {
  }

  lemma {:induction false} Kept(e: Core, env: nat, s: D.Store, n: nat, vis: seq<set<Name>>, sc: set<Name>,
                                left: set<Name>, made: set<Name>, k: Watch) returns (vis1: seq<set<Name>>)
    requires MayRun(s, vis, env, sc, left, made, k) && Free(e, k) <= sc && Ordered(e, left, made, k)
    ensures Leaves(D.Eval(e, env, s, n), s, vis, vis1, env, sc, Redefinition.Left(e, left), Inner(e, k), k)
    decreases n, 1, e, 1
  {
    hide Fine, Seen, Sees, ValOk, More, D.Lookup, D.Update, D.Bind, D.ApplyProc;
    vis1 := vis;
    AlwaysMore(s);
    UndefOk(k);
    match e
    case CQuote(d) => DatumOk(d, vis, k);
    case CVar(x) =>
      if x in k.read { SeenBy(s, vis, env, sc, left, x); }
      if D.Lookup(s, env, x).Some? { LookupOk(s, vis, k, env, x); }
    case CLambda(_, _, b) =>
      MakeFine(s, vis, k, env, e, sc, left);
      vis1 := vis[env := vis[env] + Free(e, k)];
    case CSet(x, e1) =>
      vis1 := Kept(e1, env, s, n, vis, sc, left, made, k);
      var o, left1 := D.Eval(e1, env, s, n), Redefinition.Left(e1, left);
      if o.Ok? {
        if x in k.write { SeenBy(o.s, vis1, env, sc, left1, x); }
        if D.Update(o.s, env, x, o.v).Some? {
          UpdateFine(o.s, vis1, k, env, x, o.v, sc, left1);
          MoreMore(s, o.s, D.Update(o.s, env, x, o.v).value);
        }
      }
    case CDefine(x, e1) =>
      vis1 := Kept(e1, env, s, n, vis, sc, left, made, k);
      var o := D.Eval(e1, env, s, n);
      if o.Ok? {
        FineSize(o.s, vis1, k);
        BindFine(o.s, vis1, k, env, x, o.v, sc, Redefinition.Left(e1, left));
        MoreMore(s, o.s, D.Bind(o.s, env, x, o.v));
      }
    case CIf(c, t, f) => vis1 := KeptIf(e, env, s, n, vis, sc, left, made, k);
    case CBegin(a, b) =>
      vis1 := Kept(a, env, s, n, vis, sc, left, made, k);
      var o, left1 := D.Eval(a, env, s, n), Redefinition.Left(a, left);
      if o.Ok? {
        RunOn(s, vis, env, sc, left, made, k, o.s, vis1, left1, Inner(a, k));
        var vis2 := Kept(b, env, o.s, n, vis1, sc, left1, made + Inner(a, k), k);
        var r := D.Eval(b, env, o.s, n);
        if r.Ok? {
          MoreMore(s, o.s, r.s);
          VisJoin(vis, vis1, vis2, env, Inner(a, k), Inner(b, k), Inner(e, k));
        }
        vis1 := vis2;
      }
    case CCall(fn, args) => vis1 := KeptCall(e, env, s, n, vis, sc, left, made, k);
  }

  lemma UndefOk(k: Watch)
    ensures forall vis: seq<set<Name>> :: ValOk(Undef, vis, k)
  {
  }

  lemma AlwaysMore(s: D.Store)
    ensures More(s, s)
  {
  }

  lemma FineSize(s: D.Store, vis: seq<set<Name>>, k: Watch)
    requires Fine(s, vis, k)
    ensures |vis| == |s.frames|
  {
  }

  lemma {:induction false} KeptIf(e: Core, env: nat, s: D.Store, n: nat, vis: seq<set<Name>>, sc: set<Name>,
                                  left: set<Name>, made: set<Name>, k: Watch) returns (vis1: seq<set<Name>>)
    requires MayRun(s, vis, env, sc, left, made, k) && e.CIf? && Free(e, k) <= sc && Ordered(e, left, made, k)
    ensures Leaves(D.Eval(e, env, s, n), s, vis, vis1, env, sc, Redefinition.Left(e, left), Inner(e, k), k)
    decreases n, 1, e, 0
  {
    hide Fine, Seen, ValOk, More;
    var CIf(c, t, f) := e;
    vis1 := Kept(c, env, s, n, vis, sc, left, made, k);
    var o, left1 := D.Eval(c, env, s, n), Redefinition.Left(c, left);
    if o.Ok? {
      RunOn(s, vis, env, sc, left, made, k, o.s, vis1, left1, Inner(c, k));
      var b := if o.v == Bool(false) then f else t;
      var vis2 := Kept(b, env, o.s, n, vis1, sc, left1, made + Inner(c, k), k);
      var r := D.Eval(b, env, o.s, n);
      if r.Ok? {
        MoreMore(s, o.s, r.s);
        VisJoin(vis, vis1, vis2, env, Inner(c, k), Inner(b, k), Inner(e, k));
        SeenLess(r.s, vis2, env, sc, Redefinition.Left(b, left1), Redefinition.Left(e, left));
      }
      vis1 := vis2;
    }
  }

  lemma SeenLess(s: D.Store, vis: seq<set<Name>>, env: nat, sc: set<Name>, left: set<Name>, left1: set<Name>)
    requires Seen(s, vis, env, sc, left) && left <= left1
    ensures Seen(s, vis, env, sc, left1)
  {
    hide Sees;
  }

  lemma {:induction false} KeptArgs(es: seq<Core>, env: nat, s: D.Store, n: nat, vis: seq<set<Name>>, sc: set<Name>,
                                    left: set<Name>, made: set<Name>, k: Watch) returns (vis1: seq<set<Name>>)
    requires MayRun(s, vis, env, sc, left, made, k) && FreeAll(es, k) <= sc && AllOrdered(es, left, made, k)
    ensures LeavesArgs(D.EvalArgs(es, env, s, n), s, vis, vis1, env, sc, Redefinition.LeftAll(es, left),
                       InnerAll(es, k), k)
    decreases n, 1, es, 0
  {
    hide Fine, Seen, ValOk, More;
    vis1 := vis;
    AlwaysMore(s);
    if es != [] {
      vis1 := Kept(es[0], env, s, n, vis, sc, left, made, k);
      var o, left1 := D.Eval(es[0], env, s, n), Redefinition.Left(es[0], left);
      if o.Ok? {
        RunOn(s, vis, env, sc, left, made, k, o.s, vis1, left1, Inner(es[0], k));
        var vis2 := KeptArgs(es[1..], env, o.s, n, vis1, sc, left1, made + Inner(es[0], k), k);
        var r := D.EvalArgs(es[1..], env, o.s, n);
        if r.ArgsOk? {
          MoreMore(s, o.s, r.s);
          VisJoin(vis, vis1, vis2, env, Inner(es[0], k), InnerAll(es[1..], k), InnerAll(es, k));
          ValMore(o.v, vis1, vis2, env, InnerAll(es[1..], k), k);
        }
        vis1 := vis2;
      }
    }
  }

  lemma {:induction false} KeptCall(e: Core, env: nat, s: D.Store, n: nat, vis: seq<set<Name>>, sc: set<Name>,
                                    left: set<Name>, made: set<Name>, k: Watch) returns (vis1: seq<set<Name>>)
    requires MayRun(s, vis, env, sc, left, made, k) && e.CCall? && Free(e, k) <= sc && Ordered(e, left, made, k)
    ensures Leaves(D.Eval(e, env, s, n), s, vis, vis1, env, sc, Redefinition.Left(e, left), Inner(e, k), k)
    decreases n, 1, e, 0
  {
    hide Fine, Seen, ValOk, More, D.ApplyProc;
    var CCall(fn, args) := e;
    vis1 := Kept(fn, env, s, n, vis, sc, left, made, k);
    var o, left1 := D.Eval(fn, env, s, n), Redefinition.Left(fn, left);
    if o.Ok? {
      RunOn(s, vis, env, sc, left, made, k, o.s, vis1, left1, Inner(fn, k));
      var vis2 := KeptArgs(args, env, o.s, n, vis1, sc, left1, made + Inner(fn, k), k);
      var os, left2 := D.EvalArgs(args, env, o.s, n), Redefinition.LeftAll(args, left1);
      if os.ArgsOk? {
        RunOn(o.s, vis1, env, sc, left1, made + Inner(fn, k), k, os.s, vis2, left2, InnerAll(args, k));
        ValMore(o.v, vis1, vis2, env, InnerAll(args, k), k);
        SeenAll(os.s, vis2, env, sc, left2);
        var vis3 := KeptApply(o.v, os.vs, os.s, n, vis2, k);
        var r := D.ApplyProc(o.v, os.vs, os.s, n);
        if r.Ok? {
          SeenAgain(os.s, r.s, vis2, vis3, env, sc, left2);
          MoreMore(s, o.s, os.s);
          MoreMore(s, os.s, r.s);
          VisJoin(vis, vis1, vis2, env, Inner(fn, k), InnerAll(args, k), Inner(e, k));
          VisJoin(vis, vis2, vis3, env, Inner(e, k), {}, Inner(e, k));
        }
        vis1 := vis3;
      }
    }
  }

  lemma {:induction false} KeptApply(v: D.DVal, vs: seq<D.DVal>, s: D.Store, n: nat, vis: seq<set<Name>>, k: Watch)
    returns (vis1: seq<set<Name>>)
    requires Fine(s, vis, k) && Seen(s, vis, 0, {}, {}) && ValOk(v, vis, k) && ValsOk(vs, vis, k)
    ensures Leaves(D.ApplyProc(v, vs, s, n), s, vis, vis1, 0, {}, {}, {}, k)
    decreases n, 0
  {
    hide Fine, Seen, Sees, More, D.NewFrame, Builtins.Apply;
    vis1 := vis;
    AlwaysMore(s);
    match v
    case Builtin(p) => if Builtins.Apply(p, vs).Some? { ApplyOk(p, vs, vis, k); }
    case Proc(c) =>
      if c.lam.CLambda? && S.ArityOk(|c.lam.params|, c.lam.rest.Some?, |vs|) && n > 0 {
        FineSize(s, vis, k);
        FrameFine(s, vis, k, c, vs);
        var s1 := s.(frames := s.frames + [D.NewFrame(c.lam, c.env, vs)]);
        vis1 := Kept(c.lam.body, |s.frames|, s1, n - 1, vis + [{}], Scope(c.lam, k), NameSet(Defs(c.lam.body)), {}, k);
        var o := D.Eval(c.lam.body, |s.frames|, s1, n - 1);
        if o.Ok? {
          SeenAll(o.s, vis1, |s.frames|, Scope(c.lam, k), Redefinition.Left(c.lam.body, NameSet(Defs(c.lam.body))));
          MoreMore(s, s1, o.s);
        }
      }
    case _ =>
  }
}
