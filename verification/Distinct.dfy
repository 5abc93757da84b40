/** Pairwise distinct binders are all that the passes need: they give every name a depth at which
    all its code finds it. */
module Distinct {
  import opened Util
  import opened Syntax
  import opened CoreForms
  import opened Merging
  import Frames

  /** All names that a form binds, at any depth. */
  function Binders(e: Core): seq<Name>
    decreases e, 1
  {
    match e
    case CQuote(_) | CVar(_) => []
    case CSet(_, e1) => Binders(e1)
    case CIf(c, t, f) => Binders(c) + Binders(t) + Binders(f)
    case CBegin(a, b) => Binders(a) + Binders(b)
    case CDefine(x, e1) => [x] + Binders(e1)
    case CLambda(ps, r, b) => ps + RestNames(r) + Binders(b)
    case CCall(fn, args) => Binders(fn) + BindersAll(args)
  }

  function BindersAll(es: seq<Core>): seq<Name>
    decreases es, 0
  {
    if es == [] then [] else Binders(es[0]) + BindersAll(es[1..])
  }

  function AtDepth(xs: seq<Name>, d: nat): Levels {
    map x | x in xs :: d
  }

  /** The depth of every local name of a form that stands at depth `d`. */
  function LevelsOf(e: Core, d: nat, top: bool): Levels
    decreases Size(e), 1
  {
    match e
    case CQuote(_) | CVar(_) => map[]
    case CSet(_, e1) => LevelsOf(e1, d, top)
    case CIf(c, t, f) => LevelsOf(c, d, top) + (LevelsOf(t, d, top) + LevelsOf(f, d, top))
    case CBegin(a, b) => LevelsOf(a, d, top) + LevelsOf(b, d, top)
    case CDefine(x, e1) => (if top then map[] else AtDepth([x], d)) + LevelsOf(e1, d, top)
    case CLambda(ps, r, b) => AtDepth(ps + RestNames(r), d + 1) + LevelsOf(b, d + 1, false)
    case CCall(fn, args) =>
      (if Fires(Optimize(fn), args) then
         AtDepth(Functor(fn).params, d) + LevelsOf(Functor(fn).body, d, false)
       else LevelsOf(fn, d, top))
      + LevelsOfAll(args, d, top)
  }

  function LevelsOfAll(es: seq<Core>, d: nat, top: bool): Levels
    decreases SizeAll(es), 2
  {
    if es == [] then map[] else LevelsOf(es[0], d, top) + LevelsOfAll(es[1..], d, top)
  }

  /** `lv` gives the names `xs` the depths of `m`, and no others. */
  ghost predicate Agrees(lv: Levels, m: Levels, xs: seq<Name>) {
    m.Keys <= (set x | x in xs) && forall x :: x in xs ==> (x in lv <==> x in m) && (x in m ==> lv[x] == m[x])
  }

  lemma AgreesParts(lv: Levels, m1: Levels, m2: Levels, xs: seq<Name>, ys: seq<Name>)
    requires NoDup(xs + ys) && Agrees(lv, m1 + m2, xs + ys)
    requires m1.Keys <= (set x | x in xs) && m2.Keys <= (set x | x in ys)
    ensures Agrees(lv, m1, xs) && Agrees(lv, m2, ys) && NoDup(xs) && NoDup(ys)
  {
    Frames.PrefixNoDup(xs, ys);
  }

  /** A functor that optimizes to a lambda binds what the lambda binds. */
  lemma {:induction false} FunctorBinders(fn: Core)
    requires Optimize(fn).CLambda?
    ensures Binders(Functor(fn)) == Binders(fn)
    decreases Size(fn)
  {
    if fn.CCall? {
      assert fn.args == [] && Fires(Optimize(fn.fn), []);
      var lam1 := Functor(fn.fn);
      FunctorBinders(fn.fn);
      Frames.FunctorParts(fn.fn);
      assert lam1.params == [] && lam1.rest == None;
      assert Binders(lam1) == Binders(lam1.body);
      FunctorBinders(lam1.body);
      assert BindersAll(fn.args) == [];
    }
  }

  lemma {:induction false} LevelsBound(e: Core, d: nat, top: bool)
    ensures LevelsOf(e, d, top).Keys <= set x | x in Binders(e)
    decreases Size(e), 1
  {
    match e
    case CQuote(_) | CVar(_) =>
    case CSet(_, e1) => LevelsBound(e1, d, top);
    case CIf(c, t, f) =>
      LevelsBound(c, d, top);
      LevelsBound(t, d, top);
      LevelsBound(f, d, top);
    case CBegin(a, b) =>
      LevelsBound(a, d, top);
      LevelsBound(b, d, top);
    case CDefine(x, e1) => LevelsBound(e1, d, top);
    case CLambda(ps, r, b) => LevelsBound(b, d + 1, false);
    case CCall(fn, args) =>
      LevelsAllBound(args, d, top);
      if Fires(Optimize(fn), args) {
        FunctorBinders(fn);
        LevelsBound(Functor(fn).body, d, false);
      } else {
        LevelsBound(fn, d, top);
      }
  }

  lemma {:induction false} LevelsAllBound(es: seq<Core>, d: nat, top: bool)
    ensures LevelsOfAll(es, d, top).Keys <= set x | x in BindersAll(es)
    decreases SizeAll(es), 2
  {
    if es != [] {
      LevelsBound(es[0], d, top);
      LevelsAllBound(es[1..], d, top);
    }
  }

  // ---------- local and top-level binders ----------

  function Set(xs: seq<Name>): set<Name> {
    set x | x in xs
  }

  /** Top-level definitions; inside lambdas there are none. */
  function Outside(e: Core, top: bool): set<Name> {
    if top then Set(Defs(e)) else {}
  }

  function OutsideAll(es: seq<Core>, top: bool): set<Name> {
    if top then Set(DefsAll(es)) else {}
  }

  /** Every binder is local or defined at the top level, and none is both. */
  ghost predicate Parted(keys: set<Name>, outside: set<Name>, binders: seq<Name>) {
    keys + outside == Set(binders) && keys !! outside
  }

  lemma PartedBoth(k1: set<Name>, o1: set<Name>, b1: seq<Name>, k2: set<Name>, o2: set<Name>, b2: seq<Name>)
    requires NoDup(b1 + b2) && Parted(k1, o1, b1) && Parted(k2, o2, b2)
    ensures Parted(k1 + k2, o1 + o2, b1 + b2)
  {
    Frames.PrefixNoDup(b1, b2);
    assert Set(b1 + b2) == Set(b1) + Set(b2);
    assert Set(b1) !! Set(b2);
  }

  lemma SetBoth(xs: seq<Name>, ys: seq<Name>)
    ensures Set(xs + ys) == Set(xs) + Set(ys)
  {
  }

  lemma {:induction false} FunctorDefs(fn: Core)
    requires Optimize(fn).CLambda?
    ensures Defs(fn) == []
    decreases Size(fn)
  {
    if fn.CCall? {
      assert fn.args == [] && Fires(Optimize(fn.fn), []);
      FunctorDefs(fn.fn);
      assert DefsAll([]) == [];
    }
  }

  lemma {:induction false} LocalBinders(e: Core, d: nat, top: bool)
    requires NoDup(Binders(e))
    ensures Parted(LevelsOf(e, d, top).Keys, Outside(e, top), Binders(e))
    decreases Size(e), 1
  {
    hide Parted, NoDup;
    match e
    case CQuote(_) | CVar(_) =>
      PartedNone();
      assert LevelsOf(e, d, top).Keys == {} && Outside(e, top) == {};
    case CSet(_, e1) => LocalBinders(e1, d, top);
    case CIf(c, t, f) =>
      Frames.PrefixNoDup(Binders(c) + Binders(t), Binders(f));
      Frames.PrefixNoDup(Binders(c), Binders(t));
      LocalBinders(c, d, top);
      LocalBinders(t, d, top);
      LocalBinders(f, d, top);
      PartedBoth(LevelsOf(c, d, top).Keys, Outside(c, top), Binders(c),
                 LevelsOf(t, d, top).Keys, Outside(t, top), Binders(t));
      PartedBoth(LevelsOf(c, d, top).Keys + LevelsOf(t, d, top).Keys, Outside(c, top) + Outside(t, top),
                 Binders(c) + Binders(t), LevelsOf(f, d, top).Keys, Outside(f, top), Binders(f));
      SetBoth(Defs(c) + Defs(t), Defs(f));
      SetBoth(Defs(c), Defs(t));
      assert LevelsOf(e, d, top).Keys
        == LevelsOf(c, d, top).Keys + LevelsOf(t, d, top).Keys + LevelsOf(f, d, top).Keys;
      assert Outside(e, top) == Outside(c, top) + Outside(t, top) + Outside(f, top);
    case CBegin(a, b) =>
      Frames.PrefixNoDup(Binders(a), Binders(b));
      LocalBinders(a, d, top);
      LocalBinders(b, d, top);
      PartedBoth(LevelsOf(a, d, top).Keys, Outside(a, top), Binders(a),
                 LevelsOf(b, d, top).Keys, Outside(b, top), Binders(b));
      SetBoth(Defs(a), Defs(b));
      assert LevelsOf(e, d, top).Keys == LevelsOf(a, d, top).Keys + LevelsOf(b, d, top).Keys;
      assert Outside(e, top) == Outside(a, top) + Outside(b, top);
    case CDefine(x, e1) =>
      Frames.PrefixNoDup([x], Binders(e1));
      LocalBinders(e1, d, top);
      PartedOne(x, top);
      PartedBoth(if top then {} else {x}, if top then {x} else {}, [x],
                 LevelsOf(e1, d, top).Keys, Outside(e1, top), Binders(e1));
      SetBoth([x], Defs(e1));
      assert LevelsOf(e, d, top).Keys == (if top then {} else {x}) + LevelsOf(e1, d, top).Keys;
      assert Outside(e, top) == (if top then {x} else {}) + Outside(e1, top);
    case CLambda(ps, r, b) =>
      Frames.PrefixNoDup(ps + RestNames(r), Binders(b));
      LocalBinders(b, d + 1, false);
      PartedAll(ps + RestNames(r));
      PartedBoth(Set(ps + RestNames(r)), {}, ps + RestNames(r), LevelsOf(b, d + 1, false).Keys, {}, Binders(b));
      assert LevelsOf(e, d, top).Keys == Set(ps + RestNames(r)) + LevelsOf(b, d + 1, false).Keys;
      assert Outside(e, top) == {} + {};
    case CCall(_, _) => LocalCall(e, d, top);
  }

  lemma PartedNone()
    ensures Parted({}, {}, [])
  {
  }

  lemma PartedOne(x: Name, top: bool)
    ensures Parted(if top then {} else {x}, if top then {x} else {}, [x])
  {
  }

  lemma PartedAll(xs: seq<Name>)
    ensures Parted(Set(xs), {}, xs)
  {
  }

  lemma {:induction false} LocalCall(e: Core, d: nat, top: bool)
    requires e.CCall? && NoDup(Binders(e))
    ensures Parted(LevelsOf(e, d, top).Keys, Outside(e, top), Binders(e))
    decreases Size(e), 0
  {
    hide Parted, NoDup;
    var CCall(fn, args) := e;
    Frames.PrefixNoDup(Binders(fn), BindersAll(args));
    LocalBindersAll(args, d, top);
    SetBoth(Defs(fn), DefsAll(args));
    if Fires(Optimize(fn), args) {
      var lam := Functor(fn);
      FunctorBinders(fn);
      FunctorDefs(fn);
      Frames.FunctorParts(fn);
      assert Binders(lam) == lam.params + [] + Binders(lam.body);
      assert Binders(lam) == lam.params + Binders(lam.body);
      Frames.PrefixNoDup(lam.params, Binders(lam.body));
      LocalBinders(lam.body, d, false);
      PartedAll(lam.params);
      PartedBoth(Set(lam.params), {}, lam.params, LevelsOf(lam.body, d, false).Keys, {}, Binders(lam.body));
      PartedBoth(Set(lam.params) + LevelsOf(lam.body, d, false).Keys, {} + {}, Binders(fn),
                 LevelsOfAll(args, d, top).Keys, OutsideAll(args, top), BindersAll(args));
      assert LevelsOf(e, d, top).Keys
        == Set(lam.params) + LevelsOf(lam.body, d, false).Keys + LevelsOfAll(args, d, top).Keys;
      assert Outside(e, top) == {} + {} + OutsideAll(args, top);
    } else {
      LocalBinders(fn, d, top);
      PartedBoth(LevelsOf(fn, d, top).Keys, Outside(fn, top), Binders(fn),
                 LevelsOfAll(args, d, top).Keys, OutsideAll(args, top), BindersAll(args));
      assert LevelsOf(e, d, top).Keys == LevelsOf(fn, d, top).Keys + LevelsOfAll(args, d, top).Keys;
      assert Outside(e, top) == Outside(fn, top) + OutsideAll(args, top);
    }
  }

  lemma {:induction false} LocalBindersAll(es: seq<Core>, d: nat, top: bool)
    requires NoDup(BindersAll(es))
    ensures Parted(LevelsOfAll(es, d, top).Keys, OutsideAll(es, top), BindersAll(es))
    decreases SizeAll(es), 2
  {
    hide Parted, NoDup;
    if es == [] {
      PartedNone();
      assert LevelsOfAll(es, d, top).Keys == {} && OutsideAll(es, top) == {};
    } else {
      Frames.PrefixNoDup(Binders(es[0]), BindersAll(es[1..]));
      LocalBinders(es[0], d, top);
      LocalBindersAll(es[1..], d, top);
      PartedBoth(LevelsOf(es[0], d, top).Keys, Outside(es[0], top), Binders(es[0]),
                 LevelsOfAll(es[1..], d, top).Keys, OutsideAll(es[1..], top), BindersAll(es[1..]));
      SetBoth(Defs(es[0]), DefsAll(es[1..]));
      assert LevelsOfAll(es, d, top).Keys == LevelsOf(es[0], d, top).Keys + LevelsOfAll(es[1..], d, top).Keys;
      assert OutsideAll(es, top) == Outside(es[0], top) + OutsideAll(es[1..], top);
    }
  }

  // ---------- definitions are binders ----------

  ghost predicate Within(xs: seq<Name>, ys: seq<Name>) {
    multiset(xs) <= multiset(ys)
  }

  lemma WithinSum(xs: seq<Name>, ys: seq<Name>, xs1: seq<Name>, ys1: seq<Name>)
    requires Within(xs, xs1) && Within(ys, ys1)
    ensures Within(xs + ys, xs1 + ys1)
  {
    assert multiset(xs1 + ys1) == multiset(xs1) + multiset(ys1);
    assert multiset(xs + ys) == multiset(xs) + multiset(ys);
  }

  lemma OnceIndex(xs: seq<Name>, i: nat, j: nat)
    requires i < j < |xs| && xs[i] == xs[j]
    ensures multiset(xs)[xs[i]] >= 2
  {
    assert xs == xs[..j] + [xs[j]] + xs[j + 1..];
    assert xs[..j][i] == xs[i];
    assert multiset(xs) == multiset(xs[..j]) + multiset([xs[j]]) + multiset(xs[j + 1..]);
    assert xs[i] in multiset(xs[..j]);
  }

  lemma {:induction false} NoDupOnce(xs: seq<Name>, x: Name)
    requires NoDup(xs)
    ensures multiset(xs)[x] <= 1
    decreases |xs|
  {
    if xs != [] {
      var k := |xs| - 1;
      assert xs == xs[..k] + [xs[k]];
      NoDupOnce(xs[..k], x);
      assert multiset(xs) == multiset(xs[..k]) + multiset([xs[k]]);
      if x == xs[k] { assert x !in xs[..k]; }
    }
  }

  lemma NoDupWithin(xs: seq<Name>, ys: seq<Name>)
    requires Within(xs, ys) && NoDup(ys)
    ensures NoDup(xs)
  {
    forall i, j | 0 <= i < j < |xs| ensures xs[i] != xs[j] {
      if xs[i] == xs[j] {
        OnceIndex(xs, i, j);
        NoDupOnce(ys, xs[i]);
      }
    }
  }

  lemma {:induction false} RedexWithin(params: seq<Name>, args: seq<Core>)
    requires |params| == |args|
    ensures multiset(Frames.RedexDefs(params, args)) == multiset(params) + multiset(DefsAll(args))
    decreases |args|
  {
    if args != [] {
      RedexWithin(params[1..], args[1..]);
      assert params == [params[0]] + params[1..];
      var rest := Frames.RedexDefs(params[1..], args[1..]);
      assert Frames.RedexDefs(params, args) == [params[0]] + Defs(args[0]) + rest;
      assert multiset([params[0]] + Defs(args[0]) + rest) == multiset([params[0]]) + multiset(Defs(args[0]))
        + multiset(rest);
      assert DefsAll(args) == Defs(args[0]) + DefsAll(args[1..]);
      assert multiset(DefsAll(args)) == multiset(Defs(args[0])) + multiset(DefsAll(args[1..]));
      assert multiset(params) == multiset([params[0]]) + multiset(params[1..]);
    }
  }

  /** Optimizing invents no definitions: what it defines was bound before. */
  lemma {:induction false} DefsWithin(e: Core)
    ensures Within(Defs(Optimize(e)), Binders(e))
    decreases Size(e), 1
  {
    hide Within;
    match e
    case CQuote(_) | CVar(_) | CLambda(_, _, _) => WithinNone(Binders(e));
    case CSet(_, e1) => DefsWithin(e1);
    case CIf(c, t, f) =>
      DefsWithin(c);
      DefsWithin(t);
      DefsWithin(f);
      WithinSum(Defs(Optimize(c)), Defs(Optimize(t)), Binders(c), Binders(t));
      WithinSum(Defs(Optimize(c)) + Defs(Optimize(t)), Defs(Optimize(f)), Binders(c) + Binders(t), Binders(f));
    case CBegin(a, b) =>
      DefsWithin(a);
      DefsWithin(b);
      WithinSum(Defs(Optimize(a)), Defs(Optimize(b)), Binders(a), Binders(b));
    case CDefine(x, e1) =>
      DefsWithin(e1);
      WithinNone([x]);
      WithinSum([x], Defs(Optimize(e1)), [x], Binders(e1));
    case CCall(fn, args) =>
      Frames.OptimizeCall(fn, args);
      DefsAllWithin(args);
      var ds := DefsAll(OptimizeAll(args));
      if Fires(Optimize(fn), args) {
        FunctorSmaller(fn);
        DefsWithin(Functor(fn).body);
        RedexDefsWithin(fn, args);
      } else {
        DefsWithin(fn);
        WithinSum(Defs(Optimize(fn)), ds, Binders(fn), BindersAll(args));
      }
  }

  lemma FunctorSmaller(fn: Core)
    requires Optimize(fn).CLambda?
    ensures Size(Functor(fn).body) < Size(fn)
  {
  }

  lemma RedexDefsWithin(fn: Core, args: seq<Core>)
    requires Fires(Optimize(fn), args) && Within(DefsAll(OptimizeAll(args)), BindersAll(args))
    requires Within(Defs(Optimize(Functor(fn).body)), Binders(Functor(fn).body))
    ensures Within(Defs(Optimize(CCall(fn, args))), Binders(CCall(fn, args)))
  {
    RedexParts(fn, args);
    hide *;
    var lam, args1 := Functor(fn), OptimizeAll(args);
    RedexWithin(lam.params, args1);
    RedexMultisets(lam.params, DefsAll(args1), Defs(Optimize(lam.body)), Frames.RedexDefs(lam.params, args1),
                   BindersAll(args), Binders(lam.body));
  }

  lemma RedexParts(fn: Core, args: seq<Core>)
    requires Fires(Optimize(fn), args)
    ensures Functor(fn).CLambda? && |Functor(fn).params| == |OptimizeAll(args)|
    ensures Defs(Optimize(CCall(fn, args)))
         == Frames.RedexDefs(Functor(fn).params, OptimizeAll(args)) + Defs(Optimize(Functor(fn).body))
    ensures Binders(CCall(fn, args)) == Functor(fn).params + Binders(Functor(fn).body) + BindersAll(args)
  {
    hide Optimize, Defs, Frames.RedexDefs, OptimizeAll;
    Frames.OptimizeCall(fn, args);
    FunctorBinders(fn);
    Frames.FunctorParts(fn);
    Frames.DefsOfDefines(Functor(fn).params, OptimizeAll(args), Optimize(Functor(fn).body));
    assert Functor(fn).params + [] == Functor(fn).params;
  }

  lemma WithinNone(xs: seq<Name>)
    ensures Within([], xs) && Within(xs, xs)
  {
  }

  lemma RedexMultisets(ps: seq<Name>, ds: seq<Name>, bs: seq<Name>, rs: seq<Name>, ds1: seq<Name>, bs1: seq<Name>)
    requires multiset(rs) == multiset(ps) + multiset(ds) && Within(ds, ds1) && Within(bs, bs1)
    ensures Within(rs + bs, ps + bs1 + ds1)
  {
    assert multiset(rs + bs) == multiset(rs) + multiset(bs);
    assert multiset(ps + bs1 + ds1) == multiset(ps) + multiset(bs1) + multiset(ds1);
  }

  lemma {:induction false} DefsAllWithin(es: seq<Core>)
    ensures Within(DefsAll(OptimizeAll(es)), BindersAll(es))
    decreases SizeAll(es), 2
  {
    if es != [] {
      DefsWithin(es[0]);
      DefsAllWithin(es[1..]);
      assert OptimizeAll(es)[1..] == OptimizeAll(es[1..]);
      WithinSum(Defs(Optimize(es[0])), DefsAll(OptimizeAll(es[1..])), Binders(es[0]), BindersAll(es[1..]));
    }
  }

  // ---------- distinct binders fit ----------

  lemma {:induction false} DistinctFits(lv: Levels, e: Core, d: nat, top: bool)
    requires NoDup(Binders(e)) && Agrees(lv, LevelsOf(e, d, top), Binders(e))
    ensures Fits(lv, e, d, top)
    decreases Size(e), 1
  {
    match e
    case CQuote(_) | CVar(_) =>
    case CSet(_, e1) => DistinctFits(lv, e1, d, top);
    case CIf(c, t, f) =>
      LevelsBound(c, d, top);
      LevelsBound(t, d, top);
      LevelsBound(f, d, top);
      assert Binders(e) == Binders(c) + (Binders(t) + Binders(f));
      AgreesParts(lv, LevelsOf(c, d, top), LevelsOf(t, d, top) + LevelsOf(f, d, top), Binders(c),
                  Binders(t) + Binders(f));
      AgreesParts(lv, LevelsOf(t, d, top), LevelsOf(f, d, top), Binders(t), Binders(f));
      DistinctFits(lv, c, d, top);
      DistinctFits(lv, t, d, top);
      DistinctFits(lv, f, d, top);
    case CBegin(a, b) =>
      LevelsBound(a, d, top);
      LevelsBound(b, d, top);
      AgreesParts(lv, LevelsOf(a, d, top), LevelsOf(b, d, top), Binders(a), Binders(b));
      DistinctFits(lv, a, d, top);
      DistinctFits(lv, b, d, top);
    case CDefine(x, e1) =>
      LevelsBound(e1, d, top);
      AgreesParts(lv, if top then map[] else AtDepth([x], d), LevelsOf(e1, d, top), [x], Binders(e1));
      assert x in [x];
      DistinctFits(lv, e1, d, top);
    case CLambda(ps, r, b) =>
      LevelsBound(b, d + 1, false);
      AgreesParts(lv, AtDepth(ps + RestNames(r), d + 1), LevelsOf(b, d + 1, false), ps + RestNames(r), Binders(b));
      DistinctFits(lv, b, d + 1, false);
      DefsWithin(b);
      WithinSum(ps + RestNames(r), Defs(Optimize(b)), ps + RestNames(r), Binders(b));
      NoDupWithin(ps + RestNames(r) + Defs(Optimize(b)), Binders(e));
    case CCall(fn, args) =>
      LevelsAllBound(args, d, top);
      if Fires(Optimize(fn), args) {
        DistinctRedex(lv, fn, args, d, top);
      } else {
        LevelsBound(fn, d, top);
        AgreesParts(lv, LevelsOf(fn, d, top), LevelsOfAll(args, d, top), Binders(fn), BindersAll(args));
        DistinctFits(lv, fn, d, top);
        DistinctAllFit(lv, args, d, top);
      }
  }

  lemma {:induction false} DistinctRedex(lv: Levels, fn: Core, args: seq<Core>, d: nat, top: bool)
    requires NoDup(Binders(CCall(fn, args))) && Agrees(lv, LevelsOf(CCall(fn, args), d, top), Binders(CCall(fn, args)))
    requires Fires(Optimize(fn), args)
    ensures Fits(lv, CCall(fn, args), d, top)
    decreases Size(CCall(fn, args)), 0
  {
    FunctorBinders(fn);
    Frames.FunctorParts(fn);
    var lam := Functor(fn);
    assert Binders(lam) == lam.params + Binders(lam.body);
    LevelsBound(lam.body, d, false);
    LevelsAllBound(args, d, top);
    AgreesParts(lv, AtDepth(lam.params, d) + LevelsOf(lam.body, d, false), LevelsOfAll(args, d, top), Binders(fn),
                BindersAll(args));
    AgreesParts(lv, AtDepth(lam.params, d), LevelsOf(lam.body, d, false), lam.params, Binders(lam.body));
    DistinctFits(lv, lam.body, d, false);
    DistinctAllFit(lv, args, d, top);
  }

  lemma {:induction false} DistinctAllFit(lv: Levels, es: seq<Core>, d: nat, top: bool)
    requires NoDup(BindersAll(es)) && Agrees(lv, LevelsOfAll(es, d, top), BindersAll(es))
    ensures FitsAll(lv, es, d, top)
    decreases SizeAll(es), 2
  {
    if es != [] {
      LevelsBound(es[0], d, top);
      LevelsAllBound(es[1..], d, top);
      AgreesParts(lv, LevelsOf(es[0], d, top), LevelsOfAll(es[1..], d, top), Binders(es[0]), BindersAll(es[1..]));
      DistinctFits(lv, es[0], d, top);
      DistinctAllFit(lv, es[1..], d, top);
    }
  }

  /** A program with pairwise distinct binders fits the depths of its own text. */
  lemma DistinctProgram(e: Core)
    requires NoDup(Binders(e))
    ensures Fits(LevelsOf(e, 0, true), e, 0, true) && NoDup(Defs(Optimize(e)))
    ensures forall x :: x in LevelsOf(e, 0, true) || x in Defs(Optimize(e)) ==> x in Binders(e)
  {
    LevelsBound(e, 0, true);
    DistinctFits(LevelsOf(e, 0, true), e, 0, true);
    DefsWithin(e);
    NoDupWithin(Defs(Optimize(e)), Binders(e));
    forall x | x in Defs(Optimize(e)) ensures x in Binders(e) {
      assert x in multiset(Defs(Optimize(e)));
      assert x in multiset(Binders(e));
    }
  }
}
