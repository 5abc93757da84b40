/** The expander on programs without macros: every reference gets the name of its innermost binder, and every
    binder a name of its own. */
module Expansion {
  import opened Util
  import opened Syntax
  import opened CoreForms
  import opened Identifiers
  import Merging
  import Distinct
  import Frames

  /** A program as it is read, with symbols for identifiers. */
  datatype Form =
    | FQuote(d: Datum)
    | FVar(x: string)
    | FSet(x: string, e: Form)
    | FIf(c: Form, t: Form, f: Form)
    | FBegin(e1: Form, e2: Form)
    | FDefine(x: string, e: Form)
    | FLambda(params: seq<string>, rest: Option<string>, body: Form)
    | FCall(fn: Form, args: seq<Form>)

  /** A core form in which lambdas are still to be filled in. */
  datatype Skeleton =
    | KQuote(d: Datum)
    | KVar(x: Name)
    | KSet(x: Name, e: Skeleton)
    | KIf(c: Skeleton, t: Skeleton, f: Skeleton)
    | KBegin(e1: Skeleton, e2: Skeleton)
    | KDefine(x: Name, e: Skeleton)
    | KHole(i: nat)
    | KCall(fn: Skeleton, args: seq<Skeleton>)

  // ---------- lambdas are expanded last ----------

  function FormalsOf(params: seq<string>, rest: Option<string>): seq<string> {
    params + Merging.RestNames(rest)
  }

  /** The lambdas of a form that are in no other, in the order of the text. */
  function Lambdas(f: Form): seq<Form>
    decreases f, 1
  {
    match f
    case FQuote(_) | FVar(_) => []
    case FSet(_, e) => Lambdas(e)
    case FIf(c, t, e) => Lambdas(c) + Lambdas(t) + Lambdas(e)
    case FBegin(a, b) => Lambdas(a) + Lambdas(b)
    case FDefine(_, e) => Lambdas(e)
    case FLambda(_, _, _) => [f]
    case FCall(fn, args) => Lambdas(fn) + LambdasAll(args)
  }

  function LambdasAll(fs: seq<Form>): seq<Form>
    decreases fs, 0
  {
    if fs == [] then [] else Lambdas(fs[0]) + LambdasAll(fs[1..])
  }

  /** The identifiers defined in a form, inner lambdas left out. */
  function Defined(f: Form): seq<string>
    decreases f, 1
  {
    match f
    case FQuote(_) | FVar(_) | FLambda(_, _, _) => []
    case FSet(_, e) => Defined(e)
    case FIf(c, t, e) => Defined(c) + Defined(t) + Defined(e)
    case FBegin(a, b) => Defined(a) + Defined(b)
    case FDefine(x, e) => [x] + Defined(e)
    case FCall(fn, args) => Defined(fn) + DefinedAll(args)
  }

  function DefinedAll(fs: seq<Form>): seq<string>
    decreases fs, 0
  {
    if fs == [] then [] else Defined(fs[0]) + DefinedAll(fs[1..])
  }

  /** No lambda binds an identifier twice. */
  ghost predicate WellScoped(f: Form)
    decreases f, 1
  {
    match f
    case FQuote(_) | FVar(_) => true
    case FSet(_, e) => WellScoped(e)
    case FIf(c, t, e) => WellScoped(c) && WellScoped(t) && WellScoped(e)
    case FBegin(a, b) => WellScoped(a) && WellScoped(b)
    case FDefine(_, e) => WellScoped(e)
    case FLambda(ps, r, b) => NoDup(FormalsOf(ps, r) + Defined(b)) && WellScoped(b)
    case FCall(fn, args) => WellScoped(fn) && AllWellScoped(args)
  }

  ghost predicate AllWellScoped(fs: seq<Form>)
    decreases fs, 0
  {
    fs != [] ==> WellScoped(fs[0]) && AllWellScoped(fs[1..])
  }

  lemma {:induction false} LambdasScoped(f: Form)
    requires WellScoped(f)
    ensures forall l :: l in Lambdas(f) ==> l.FLambda? && WellScoped(l)
    decreases f, 1
  {
    match f
    case FQuote(_) | FVar(_) | FLambda(_, _, _) =>
    case FSet(_, e) => LambdasScoped(e);
    case FIf(c, t, e) => LambdasScoped(c); LambdasScoped(t); LambdasScoped(e);
    case FBegin(a, b) => LambdasScoped(a); LambdasScoped(b);
    case FDefine(_, e) => LambdasScoped(e);
    case FCall(fn, args) => LambdasScoped(fn); LambdasAllScoped(args);
  }

  lemma {:induction false} LambdasAllScoped(fs: seq<Form>)
    requires AllWellScoped(fs)
    ensures forall l :: l in LambdasAll(fs) ==> l.FLambda? && WellScoped(l)
    decreases fs, 0
  {
    if fs != [] {
      LambdasScoped(fs[0]);
      LambdasAllScoped(fs[1..]);
    }
  }

  /** The names that a skeleton defines. */
  function Direct(k: Skeleton): seq<Name>
    decreases k, 1
  {
    match k
    case KQuote(_) | KVar(_) | KHole(_) => []
    case KSet(_, e) => Direct(e)
    case KIf(c, t, e) => Direct(c) + Direct(t) + Direct(e)
    case KBegin(a, b) => Direct(a) + Direct(b)
    case KDefine(x, e) => [x] + Direct(e)
    case KCall(fn, args) => Direct(fn) + DirectAll(args)
  }

  function DirectAll(ks: seq<Skeleton>): seq<Name>
    decreases ks, 0
  {
    if ks == [] then [] else Direct(ks[0]) + DirectAll(ks[1..])
  }

  /** The skeleton with the lambdas in their places. */
  function Fill(k: Skeleton, ls: seq<Core>): Core
    decreases k, 1
  {
    match k
    case KQuote(d) => CQuote(d)
    case KVar(x) => CVar(x)
    case KSet(x, e) => CSet(x, Fill(e, ls))
    case KIf(c, t, e) => CIf(Fill(c, ls), Fill(t, ls), Fill(e, ls))
    case KBegin(a, b) => CBegin(Fill(a, ls), Fill(b, ls))
    case KDefine(x, e) => CDefine(x, Fill(e, ls))
    case KHole(i) => if i < |ls| then ls[i] else CQuote(DUndef)
    case KCall(fn, args) => CCall(Fill(fn, ls), FillAll(args, ls))
  }

  function FillAll(ks: seq<Skeleton>, ls: seq<Core>): (r: seq<Core>)
    ensures |r| == |ks|
    decreases ks, 0
  {
    if ks == [] then [] else [Fill(ks[0], ls)] + FillAll(ks[1..], ls)
  }

  // ---------- a skeleton of a form ----------

  /** The skeleton has the shape of the form; its definitions are named by `m`, and its holes are numbered
      from `i` on in the order of the text. */
  ghost predicate Matches(k: Skeleton, f: Form, m: map<Ident, Name>, i: nat)
    decreases f, 1
  {
    match f
    case FQuote(d) => k == KQuote(d)
    case FVar(_) => k.KVar?
    case FSet(_, e) => k.KSet? && Matches(k.e, e, m, i)
    case FIf(c, t, e) =>
      k.KIf? && Matches(k.c, c, m, i) && Matches(k.t, t, m, i + |Lambdas(c)|)
        && Matches(k.f, e, m, i + |Lambdas(c)| + |Lambdas(t)|)
    case FBegin(a, b) => k.KBegin? && Matches(k.e1, a, m, i) && Matches(k.e2, b, m, i + |Lambdas(a)|)
    case FDefine(x, e) => k.KDefine? && Symbol(x) in m && k.x == m[Symbol(x)] && Matches(k.e, e, m, i)
    case FLambda(_, _, _) => k == KHole(i)
    case FCall(fn, args) => k.KCall? && Matches(k.fn, fn, m, i) && MatchesAll(k.args, args, m, i + |Lambdas(fn)|)
  }

  ghost predicate MatchesAll(ks: seq<Skeleton>, fs: seq<Form>, m: map<Ident, Name>, i: nat)
    decreases fs, 0
  {
    |ks| == |fs| && (fs != [] ==> Matches(ks[0], fs[0], m, i) && MatchesAll(ks[1..], fs[1..], m, i + |Lambdas(fs[0])|))
  }

  ghost predicate Extends(m: map<Ident, Name>, m1: map<Ident, Name>) {
    forall x :: x in m ==> x in m1 && m1[x] == m[x]
  }

  lemma {:induction false} MatchesMore(k: Skeleton, f: Form, m: map<Ident, Name>, m1: map<Ident, Name>, i: nat)
    requires Matches(k, f, m, i) && Extends(m, m1)
    ensures Matches(k, f, m1, i)
    decreases f, 1
  {
    match f
    case FQuote(_) | FVar(_) | FLambda(_, _, _) =>
    case FSet(_, e) => MatchesMore(k.e, e, m, m1, i);
    case FIf(c, t, e) =>
      MatchesMore(k.c, c, m, m1, i);
      MatchesMore(k.t, t, m, m1, i + |Lambdas(c)|);
      MatchesMore(k.f, e, m, m1, i + |Lambdas(c)| + |Lambdas(t)|);
    case FBegin(a, b) =>
      MatchesMore(k.e1, a, m, m1, i);
      MatchesMore(k.e2, b, m, m1, i + |Lambdas(a)|);
    case FDefine(_, e) => MatchesMore(k.e, e, m, m1, i);
    case FCall(fn, args) =>
      MatchesMore(k.fn, fn, m, m1, i);
      MatchesAllMore(k.args, args, m, m1, i + |Lambdas(fn)|);
  }

  lemma {:induction false} MatchesAllMore(ks: seq<Skeleton>, fs: seq<Form>, m: map<Ident, Name>,
                                          m1: map<Ident, Name>, i: nat)
    requires MatchesAll(ks, fs, m, i) && Extends(m, m1)
    ensures MatchesAll(ks, fs, m1, i)
    decreases fs, 0
  {
    if fs != [] {
      MatchesMore(ks[0], fs[0], m, m1, i);
      MatchesAllMore(ks[1..], fs[1..], m, m1, i + |Lambdas(fs[0])|);
    }
  }

  // ---------- the binders of the expanded form ----------

  /** The identifiers `all` have different names. */
  ghost predicate NamedApart(m: map<Ident, Name>, all: set<string>) {
    forall x, y :: x in all && y in all && Symbol(x) in m && Symbol(y) in m && m[Symbol(x)] == m[Symbol(y)] ==> x == y
  }

  /** The names of the identifiers `own`, all among `all`, are all among `xs`. */
  ghost predicate NamesIn(m: map<Ident, Name>, own: seq<string>, all: set<string>, xs: set<Name>) {
    forall x :: x in own ==> x in all && Symbol(x) in m && m[Symbol(x)] in xs
  }

  /** Expanded lambdas, no two of which have a binder in common, and none has one of `xs`. */
  ghost predicate Apart(ls: seq<Core>, xs: set<Name>) {
    && (forall i, j, x :: 0 <= i < j < |ls| && x in Distinct.Binders(ls[i]) ==> x !in Distinct.Binders(ls[j]))
    && (forall i, x :: 0 <= i < |ls| && x in xs ==> x !in Distinct.Binders(ls[i]))
  }

  ghost predicate EachOnce(ls: seq<Core>) {
    forall i :: 0 <= i < |ls| ==> NoDup(Distinct.Binders(ls[i]))
  }

  ghost predicate Clean(m: map<Ident, Name>, all: set<string>, ls: seq<Core>, xs: set<Name>) {
    NamedApart(m, all) && Apart(ls, xs) && EachOnce(ls)
  }

  /** `x` is a binder of one of the lambdas `i` to `j`. */
  ghost predicate Among(ls: seq<Core>, i: nat, j: nat, x: Name) {
    exists k :: i <= k < j && k < |ls| && x in Distinct.Binders(ls[k])
  }

  /** The binders of a filled part are its own definitions and those of its lambdas. */
  ghost predicate PartOk(bs: seq<Name>, own: seq<string>, m: map<Ident, Name>, ls: seq<Core>, i: nat, j: nat,
                         all: set<string>, xs: set<Name>) {
    && i <= j && (forall x :: x in own ==> Symbol(x) in m)
    && (forall b :: b in bs ==> Among(ls, i, j, b) || exists x :: x in own && b == m[Symbol(x)])
    && (NoDup(own) && Clean(m, all, ls, xs) ==> NoDup(bs))
  }

  /** Two parts next to each other. */
  lemma PartsJoin(bs1: seq<Name>, own1: seq<string>, bs2: seq<Name>, own2: seq<string>, m: map<Ident, Name>,
                  ls: seq<Core>, i: nat, j: nat, k: nat, all: set<string>, xs: set<Name>)
    requires PartOk(bs1, own1, m, ls, i, j, all, xs) && PartOk(bs2, own2, m, ls, j, k, all, xs)
    requires NamesIn(m, own1, all, xs) && NamesIn(m, own2, all, xs)
    ensures PartOk(bs1 + bs2, own1 + own2, m, ls, i, k, all, xs)
  {
    hide Distinct.Binders;
    forall b | b in bs1 + bs2
      ensures Among(ls, i, k, b) || exists x :: x in own1 + own2 && b == m[Symbol(x)]
    {
      if b in bs1 {
        if Among(ls, i, j, b) {
          var p :| i <= p < j && p < |ls| && b in Distinct.Binders(ls[p]);
          assert Among(ls, i, k, b);
        } else {
          var x :| x in own1 && b == m[Symbol(x)];
          assert x in own1 + own2;
        }
      } else if Among(ls, j, k, b) {
        var p :| j <= p < k && p < |ls| && b in Distinct.Binders(ls[p]);
        assert Among(ls, i, k, b);
      } else {
        var x :| x in own2 && b == m[Symbol(x)];
        assert x in own1 + own2;
      }
    }
    if NoDup(own1 + own2) && Clean(m, all, ls, xs) {
      Frames.PrefixNoDup(own1, own2);
      forall b | b in bs1 ensures b !in bs2 { LeftOnly(b, own1, own2, m, ls, i, j, k, all, xs); }
      NoDupJoin(bs1, bs2);
    }
  }

  lemma NoDupJoin(xs: seq<Name>, ys: seq<Name>)
    requires NoDup(xs) && NoDup(ys) && forall x :: x in xs ==> x !in ys
    ensures NoDup(xs + ys)
  {
    var zs := xs + ys;
    forall i, j | 0 <= i < j < |zs| ensures zs[i] != zs[j] {
      if j < |xs| {
        assert zs[i] == xs[i] && zs[j] == xs[j];
      } else if i < |xs| {
        assert zs[i] in xs && zs[j] == ys[j - |xs|];
      } else {
        assert zs[i] == ys[i - |xs|] && zs[j] == ys[j - |xs|];
      }
    }
  }

  /** A binder of the left part is none of the right part. */
  lemma LeftOnly(b: Name, own1: seq<string>, own2: seq<string>, m: map<Ident, Name>, ls: seq<Core>, i: nat, j: nat,
                 k: nat, all: set<string>, xs: set<Name>)
    requires NamesIn(m, own1, all, xs) && NamesIn(m, own2, all, xs)
    requires Among(ls, i, j, b) || exists x :: x in own1 && b == m[Symbol(x)]
    requires NamedApart(m, all) && Apart(ls, xs) && forall x :: x in own1 ==> x !in own2
    ensures !Among(ls, j, k, b) && forall x :: x in own2 ==> b != m[Symbol(x)]
  {
    hide Distinct.Binders, NoDup;
    if Among(ls, i, j, b) {
      var p :| i <= p < j && p < |ls| && b in Distinct.Binders(ls[p]);
      assert forall q :: j <= q < k && q < |ls| ==> b !in Distinct.Binders(ls[q]);
      assert b !in xs;
    } else {
      var x :| x in own1 && b == m[Symbol(x)];
      assert b in xs;
      assert forall q :: j <= q < k && q < |ls| ==> b !in Distinct.Binders(ls[q]);
    }
  }

  lemma {:induction false} FilledOk(k: Skeleton, f: Form, m: map<Ident, Name>, i: nat, ls: seq<Core>, all: set<string>,
                                    xs: set<Name>)
    requires Matches(k, f, m, i)
    requires NamesIn(m, Defined(f), all, xs)
    ensures PartOk(Distinct.Binders(Fill(k, ls)), Defined(f), m, ls, i, i + |Lambdas(f)|, all, xs)
    decreases f, 1
  {
    hide PartOk, Clean, NoDup;
    match f
    case FQuote(_) | FVar(_) => NonePart(m, ls, i, all, xs);
    case FSet(_, e) => FilledOk(k.e, e, m, i, ls, all, xs);
    case FIf(c, t, e) => FilledIf(k, c, t, e, m, i, ls, all, xs);
    case FBegin(a, b) => FilledBegin(k, a, b, m, i, ls, all, xs);
    case FDefine(x, e) => FilledDefine(k, x, e, m, i, ls, all, xs);
    case FLambda(_, _, _) => HolePart(m, ls, i, all, xs);
    case FCall(fn, args) => FilledCall(k, fn, args, m, i, ls, all, xs);
  }

  lemma {:induction false} FilledBegin(k: Skeleton, a: Form, b: Form, m: map<Ident, Name>, i: nat, ls: seq<Core>,
                                       all: set<string>, xs: set<Name>)
    requires Matches(k, FBegin(a, b), m, i)
    requires NamesIn(m, Defined(FBegin(a, b)), all, xs)
    ensures PartOk(Distinct.Binders(Fill(k, ls)), Defined(FBegin(a, b)), m, ls, i, i + |Lambdas(FBegin(a, b))|, all, xs)
    decreases FBegin(a, b), 0
  {
    hide PartOk, Clean, NoDup;
    var f := FBegin(a, b);
    assert Defined(f) == Defined(a) + Defined(b) && Lambdas(f) == Lambdas(a) + Lambdas(b);
    assert Distinct.Binders(Fill(k, ls)) == Distinct.Binders(Fill(k.e1, ls)) + Distinct.Binders(Fill(k.e2, ls));
    assert Matches(k.e1, a, m, i) && Matches(k.e2, b, m, i + |Lambdas(a)|);
    hide Matches, Defined, Lambdas, Distinct.Binders, Fill;
    FilledOk(k.e1, a, m, i, ls, all, xs);
    FilledOk(k.e2, b, m, i + |Lambdas(a)|, ls, all, xs);
    PartsJoin(Distinct.Binders(Fill(k.e1, ls)), Defined(a), Distinct.Binders(Fill(k.e2, ls)), Defined(b), m, ls,
              i, i + |Lambdas(a)|, i + |Lambdas(f)|, all, xs);
  }

  lemma {:induction false} FilledDefine(k: Skeleton, x: string, e: Form, m: map<Ident, Name>, i: nat, ls: seq<Core>,
                                        all: set<string>, xs: set<Name>)
    requires Matches(k, FDefine(x, e), m, i)
    requires NamesIn(m, Defined(FDefine(x, e)), all, xs)
    ensures PartOk(Distinct.Binders(Fill(k, ls)), Defined(FDefine(x, e)), m, ls, i,
                   i + |Lambdas(FDefine(x, e))|, all, xs)
    decreases FDefine(x, e), 0
  {
    hide PartOk, Clean, NoDup;
    var f := FDefine(x, e);
    assert Defined(f) == [x] + Defined(e) && Lambdas(f) == Lambdas(e) && x in Defined(f);
    assert Distinct.Binders(Fill(k, ls)) == [k.x] + Distinct.Binders(Fill(k.e, ls));
    assert Matches(k.e, e, m, i);
    hide Matches, Defined, Lambdas, Distinct.Binders, Fill;
    FilledOk(k.e, e, m, i, ls, all, xs);
    OnePart(m, ls, i, x, all, xs);
    PartsJoin([k.x], [x], Distinct.Binders(Fill(k.e, ls)), Defined(e), m, ls, i, i, i + |Lambdas(f)|, all, xs);
  }

  lemma {:induction false} FilledCall(k: Skeleton, fn: Form, args: seq<Form>, m: map<Ident, Name>, i: nat,
                                      ls: seq<Core>, all: set<string>, xs: set<Name>)
    requires Matches(k, FCall(fn, args), m, i)
    requires NamesIn(m, Defined(FCall(fn, args)), all, xs)
    ensures PartOk(Distinct.Binders(Fill(k, ls)), Defined(FCall(fn, args)), m, ls, i,
                   i + |Lambdas(FCall(fn, args))|, all, xs)
    decreases FCall(fn, args), 0
  {
    hide PartOk, Clean, NoDup;
    var f := FCall(fn, args);
    assert Defined(f) == Defined(fn) + DefinedAll(args) && Lambdas(f) == Lambdas(fn) + LambdasAll(args);
    assert Distinct.Binders(Fill(k, ls)) == Distinct.Binders(Fill(k.fn, ls)) + Distinct.BindersAll(FillAll(k.args, ls));
    assert Matches(k.fn, fn, m, i) && MatchesAll(k.args, args, m, i + |Lambdas(fn)|);
    hide Matches, MatchesAll, Defined, DefinedAll, Lambdas, LambdasAll, Distinct.Binders, Distinct.BindersAll, Fill,
      FillAll;
    FilledOk(k.fn, fn, m, i, ls, all, xs);
    AllFilledOk(k.args, args, m, i + |Lambdas(fn)|, ls, all, xs);
    PartsJoin(Distinct.Binders(Fill(k.fn, ls)), Defined(fn), Distinct.BindersAll(FillAll(k.args, ls)),
              DefinedAll(args), m, ls,
              i, i + |Lambdas(fn)|, i + |Lambdas(f)|, all, xs);
  }

  lemma IfUnfold(k: Skeleton, c: Form, t: Form, e: Form, m: map<Ident, Name>, i: nat)
    requires Matches(k, FIf(c, t, e), m, i)
    ensures Defined(FIf(c, t, e)) == Defined(c) + Defined(t) + Defined(e)
    ensures Lambdas(FIf(c, t, e)) == Lambdas(c) + Lambdas(t) + Lambdas(e)
    ensures k.KIf? && Matches(k.c, c, m, i) && Matches(k.t, t, m, i + |Lambdas(c)|)
      && Matches(k.f, e, m, i + |Lambdas(c)| + |Lambdas(t)|)
  {
  }

  lemma IfBinders(k: Skeleton, ls: seq<Core>)
    requires k.KIf?
    ensures Distinct.Binders(Fill(k, ls))
         == Distinct.Binders(Fill(k.c, ls)) + Distinct.Binders(Fill(k.t, ls)) + Distinct.Binders(Fill(k.f, ls))
  {
  }

  lemma {:induction false} FilledIf(k: Skeleton, c: Form, t: Form, e: Form, m: map<Ident, Name>, i: nat, ls: seq<Core>,
                                    all: set<string>, xs: set<Name>)
    requires Matches(k, FIf(c, t, e), m, i)
    requires NamesIn(m, Defined(FIf(c, t, e)), all, xs)
    ensures PartOk(Distinct.Binders(Fill(k, ls)), Defined(FIf(c, t, e)), m, ls, i, i + |Lambdas(FIf(c, t, e))|, all, xs)
    decreases FIf(c, t, e), 0
  {
    hide PartOk, Clean, NoDup, Matches, Defined, Lambdas, Distinct.Binders, Fill;
    IfUnfold(k, c, t, e, m, i);
    IfBinders(k, ls);
    var b1, b2, b3 := Distinct.Binders(Fill(k.c, ls)), Distinct.Binders(Fill(k.t, ls)), Distinct.Binders(Fill(k.f, ls));
    var j1 := i + |Lambdas(c)|;
    var j2 := j1 + |Lambdas(t)|;
    FilledOk(k.c, c, m, i, ls, all, xs);
    FilledOk(k.t, t, m, j1, ls, all, xs);
    FilledOk(k.f, e, m, j2, ls, all, xs);
    PartsJoin(b1, Defined(c), b2, Defined(t), m, ls, i, j1, j2, all, xs);
    PartsJoin(b1 + b2, Defined(c) + Defined(t), b3, Defined(e), m, ls, i, j2, j2 + |Lambdas(e)|, all, xs);
  }

  lemma AllUnfold(ks: seq<Skeleton>, fs: seq<Form>, m: map<Ident, Name>, i: nat, ls: seq<Core>)
    requires MatchesAll(ks, fs, m, i)
    ensures |ks| == |fs|
    ensures fs != [] ==>
      && DefinedAll(fs) == Defined(fs[0]) + DefinedAll(fs[1..])
      && LambdasAll(fs) == Lambdas(fs[0]) + LambdasAll(fs[1..])
      && Matches(ks[0], fs[0], m, i) && MatchesAll(ks[1..], fs[1..], m, i + |Lambdas(fs[0])|)
      && Distinct.BindersAll(FillAll(ks, ls)) == Distinct.Binders(Fill(ks[0], ls))
        + Distinct.BindersAll(FillAll(ks[1..], ls))
    ensures fs == [] ==> DefinedAll(fs) == [] && LambdasAll(fs) == [] && Distinct.BindersAll(FillAll(ks, ls)) == []
  {
    hide Matches, Defined, Lambdas, Distinct.Binders, Fill;
    if fs != [] { assert FillAll(ks, ls)[0] == Fill(ks[0], ls) && FillAll(ks, ls)[1..] == FillAll(ks[1..], ls); }
  }

  lemma {:induction false} AllFilledOk(ks: seq<Skeleton>, fs: seq<Form>, m: map<Ident, Name>, i: nat, ls: seq<Core>,
                                       all: set<string>, xs: set<Name>)
    requires MatchesAll(ks, fs, m, i)
    requires NamesIn(m, DefinedAll(fs), all, xs)
    ensures PartOk(Distinct.BindersAll(FillAll(ks, ls)), DefinedAll(fs), m, ls, i, i + |LambdasAll(fs)|, all, xs)
    decreases fs, 0
  {
    hide PartOk, Clean, Matches, MatchesAll, Defined, DefinedAll, Lambdas, LambdasAll, Distinct.Binders,
      Distinct.BindersAll, Fill, FillAll;
    AllUnfold(ks, fs, m, i, ls);
    if fs == [] {
      NonePart(m, ls, i, all, xs);
    } else {
      FilledOk(ks[0], fs[0], m, i, ls, all, xs);
      AllFilledOk(ks[1..], fs[1..], m, i + |Lambdas(fs[0])|, ls, all, xs);
      PartsJoin(Distinct.Binders(Fill(ks[0], ls)), Defined(fs[0]), Distinct.BindersAll(FillAll(ks[1..], ls)),
                DefinedAll(fs[1..]), m, ls,
                i, i + |Lambdas(fs[0])|, i + |LambdasAll(fs)|, all, xs);
    }
  }

  lemma NonePart(m: map<Ident, Name>, ls: seq<Core>, i: nat, all: set<string>, xs: set<Name>)
    ensures PartOk([], [], m, ls, i, i, all, xs)
  {
  }

  lemma OnePart(m: map<Ident, Name>, ls: seq<Core>, i: nat, x: string, all: set<string>, xs: set<Name>)
    requires Symbol(x) in m
    ensures PartOk([m[Symbol(x)]], [x], m, ls, i, i, all, xs)
  {
    hide Distinct.Binders;
    assert x in [x];
  }

  lemma HolePart(m: map<Ident, Name>, ls: seq<Core>, i: nat, all: set<string>, xs: set<Name>)
    ensures PartOk(Distinct.Binders(Fill(KHole(i), ls)), [], m, ls, i, i + 1, all, xs)
  {
    if i < |ls| {
      forall b | b in Distinct.Binders(ls[i]) ensures Among(ls, i, i + 1, b) {}
    }
  }

  // ---------- references ----------

  /** `n` is the name of the identifier `x` where the identifiers `ds` of this scope have their names `m`, and all
      others the names `out`. */
  ghost predicate Refer(n: Name, x: string, m: map<Ident, Name>, ds: seq<string>, out: string -> Name) {
    if x in ds then Symbol(x) in m && n == m[Symbol(x)] else n == out(x)
  }

  /** Every reference in the skeleton is the name of its identifier. A definition counts from its own value on. */
  ghost predicate Refers(k: Skeleton, f: Form, m: map<Ident, Name>, ds: seq<string>, out: string -> Name)
    decreases f, 1
  {
    match f
    case FQuote(_) | FLambda(_, _, _) => true
    case FVar(x) => k.KVar? && Refer(k.x, x, m, ds, out)
    case FSet(x, e) => k.KSet? && Refer(k.x, x, m, ds, out) && Refers(k.e, e, m, ds, out)
    case FIf(c, t, e) =>
      && k.KIf? && Refers(k.c, c, m, ds, out) && Refers(k.t, t, m, ds + Defined(c), out)
      && Refers(k.f, e, m, ds + Defined(c) + Defined(t), out)
    case FBegin(a, b) => k.KBegin? && Refers(k.e1, a, m, ds, out) && Refers(k.e2, b, m, ds + Defined(a), out)
    case FDefine(x, e) => k.KDefine? && Refers(k.e, e, m, ds + [x], out)
    case FCall(fn, args) =>
      k.KCall? && Refers(k.fn, fn, m, ds, out)
      && RefersAll(k.args, args, m, ds + Defined(fn), out)
  }

  ghost predicate RefersAll(ks: seq<Skeleton>, fs: seq<Form>, m: map<Ident, Name>, ds: seq<string>, out: string -> Name)
    decreases fs, 0
  {
    |ks| == |fs| && (fs != [] ==>
      Refers(ks[0], fs[0], m, ds, out) && RefersAll(ks[1..], fs[1..], m, ds + Defined(fs[0]), out))
  }

  lemma {:induction false} RefersMore(k: Skeleton, f: Form, m: map<Ident, Name>, m1: map<Ident, Name>, ds: seq<string>,
                                      out: string -> Name)
    requires Refers(k, f, m, ds, out) && Extends(m, m1)
    ensures Refers(k, f, m1, ds, out)
    decreases f, 1
  {
    hide Defined;
    match f
    case FQuote(_) | FVar(_) | FLambda(_, _, _) =>
    case FSet(_, e) => RefersMore(k.e, e, m, m1, ds, out);
    case FIf(c, t, e) =>
      RefersMore(k.c, c, m, m1, ds, out);
      RefersMore(k.t, t, m, m1, ds + Defined(c), out);
      RefersMore(k.f, e, m, m1, ds + Defined(c) + Defined(t), out);
    case FBegin(a, b) =>
      RefersMore(k.e1, a, m, m1, ds, out);
      RefersMore(k.e2, b, m, m1, ds + Defined(a), out);
    case FDefine(x, e) => RefersMore(k.e, e, m, m1, ds + [x], out);
    case FCall(fn, args) =>
      RefersMore(k.fn, fn, m, m1, ds, out);
      RefersAllMore(k.args, args, m, m1, ds + Defined(fn), out);
  }

  lemma {:induction false} RefersAllMore(ks: seq<Skeleton>, fs: seq<Form>, m: map<Ident, Name>, m1: map<Ident, Name>,
                                         ds: seq<string>, out: string -> Name)
    requires RefersAll(ks, fs, m, ds, out) && Extends(m, m1)
    ensures RefersAll(ks, fs, m1, ds, out)
    decreases fs, 0
  {
    if fs != [] {
      RefersMore(ks[0], fs[0], m, m1, ds, out);
      RefersAllMore(ks[1..], fs[1..], m, m1, ds + Defined(fs[0]), out);
    }
  }

  // ---------- what the expanded form is ----------

  /** The names that a lambda sees: it is expanded when its scope knows all its definitions, `fin`. */
  ghost function Within(m: map<Ident, Name>, fin: seq<string>, out: string -> Name): string -> Name {
    x => if x in fin && Symbol(x) in m then m[Symbol(x)] else out(x)
  }

  /** The formals have their names. */
  ghost predicate BindsFormals(m: map<Ident, Name>, xs: seq<string>, names: seq<Name>) {
    |names| == |xs| && forall i :: 0 <= i < |xs| ==> Symbol(xs[i]) in m && m[Symbol(xs[i])] == names[i]
  }

  /** The core form is the form with the names of its identifiers: lexical scope. */
  ghost predicate Renames(f: Form, c: Core, m: map<Ident, Name>, ds: seq<string>, fin: seq<string>, out: string -> Name)
    decreases f, 1
  {
    match f
    case FQuote(d) => c == CQuote(d)
    case FVar(x) => c.CVar? && Refer(c.x, x, m, ds, out)
    case FSet(x, e) => c.CSet? && Refer(c.x, x, m, ds, out) && Renames(e, c.e, m, ds, fin, out)
    case FIf(a, t, e) =>
      && c.CIf? && Renames(a, c.c, m, ds, fin, out) && Renames(t, c.t, m, ds + Defined(a), fin, out)
      && Renames(e, c.f, m, ds + Defined(a) + Defined(t), fin, out)
    case FBegin(a, b) => c.CBegin? && Renames(a, c.e1, m, ds, fin, out)
      && Renames(b, c.e2, m, ds + Defined(a), fin, out)
    case FDefine(x, e) => c.CDefine? && Symbol(x) in m && c.x == m[Symbol(x)] && Renames(e, c.e, m, ds + [x], fin, out)
    case FLambda(_, _, _) => RenamesLambda(f, c, Within(m, fin, out))
    case FCall(fn, args) =>
      c.CCall? && Renames(fn, c.fn, m, ds, fin, out)
      && RenamesAll(args, c.args, m, ds + Defined(fn), fin, out)
  }

  ghost predicate RenamesAll(fs: seq<Form>, cs: seq<Core>, m: map<Ident, Name>, ds: seq<string>, fin: seq<string>,
                             out: string -> Name)
    decreases fs, 0
  {
    |fs| == |cs| && (fs != [] ==>
      Renames(fs[0], cs[0], m, ds, fin, out) && RenamesAll(fs[1..], cs[1..], m, ds + Defined(fs[0]), fin, out))
  }

  /** A lambda has a scope of its own. */
  ghost predicate RenamesLambda(f: Form, c: Core, out: string -> Name)
    decreases f, 0
  {
    && f.FLambda? && c.CLambda? && |c.params| == |f.params| && c.rest.Some? == f.rest.Some?
    && exists m: map<Ident, Name> ::
         && BindsFormals(m, FormalsOf(f.params, f.rest), c.params + Merging.RestNames(c.rest))
         && Renames(f.body, c.body, m, FormalsOf(f.params, f.rest), FormalsOf(f.params, f.rest) + Defined(f.body), out)
  }

  /** The lambdas from the `i`th on are those of a part of the form. */
  ghost predicate LambdasFrom(gs: seq<Form>, ls: seq<Core>, i: nat, out: string -> Name) {
    i + |gs| <= |ls| && forall j :: i <= j < i + |gs| ==> RenamesLambda(gs[j - i], ls[j], out)
  }

  lemma LambdasSplit(gs: seq<Form>, hs: seq<Form>, ls: seq<Core>, i: nat, out: string -> Name)
    requires LambdasFrom(gs + hs, ls, i, out)
    ensures LambdasFrom(gs, ls, i, out) && LambdasFrom(hs, ls, i + |gs|, out)
  {
    hide RenamesLambda;
    forall j | i <= j < i + |gs| ensures RenamesLambda(gs[j - i], ls[j], out) { assert (gs + hs)[j - i] == gs[j - i]; }
    forall j | i + |gs| <= j < i + |gs| + |hs| ensures RenamesLambda(hs[j - (i + |gs|)], ls[j], out) {
      assert (gs + hs)[j - i] == hs[j - (i + |gs|)];
    }
  }

  lemma {:induction false} FilledRenames(k: Skeleton, f: Form, m: map<Ident, Name>, i: nat, ls: seq<Core>,
                                         ds: seq<string>, fin: seq<string>, out: string -> Name)
    requires Matches(k, f, m, i) && Refers(k, f, m, ds, out) && LambdasFrom(Lambdas(f), ls, i, Within(m, fin, out))
    ensures Renames(f, Fill(k, ls), m, ds, fin, out)
    decreases f, 1
  {
    hide LambdasFrom, Refer, Within, Defined, RenamesLambda;
    match f
    case FQuote(_) | FVar(_) =>
    case FSet(_, e) => FilledRenames(k.e, e, m, i, ls, ds, fin, out);
    case FIf(c, t, e) => FilledIfRenames(k, c, t, e, m, i, ls, ds, fin, out);
    case FBegin(a, b) =>
      LambdasSplit(Lambdas(a), Lambdas(b), ls, i, Within(m, fin, out));
      FilledRenames(k.e1, a, m, i, ls, ds, fin, out);
      FilledRenames(k.e2, b, m, i + |Lambdas(a)|, ls, ds + Defined(a), fin, out);
    case FDefine(x, e) => FilledRenames(k.e, e, m, i, ls, ds + [x], fin, out);
    case FLambda(_, _, _) => OneLambda(f, ls, i, Within(m, fin, out));
    case FCall(fn, args) =>
      LambdasSplit(Lambdas(fn), LambdasAll(args), ls, i, Within(m, fin, out));
      FilledRenames(k.fn, fn, m, i, ls, ds, fin, out);
      AllFilledRenames(k.args, args, m, i + |Lambdas(fn)|, ls, ds + Defined(fn), fin, out);
  }

  lemma {:induction false} FilledIfRenames(k: Skeleton, c: Form, t: Form, e: Form, m: map<Ident, Name>, i: nat,
                                           ls: seq<Core>, ds: seq<string>, fin: seq<string>, out: string -> Name)
    requires Matches(k, FIf(c, t, e), m, i) && Refers(k, FIf(c, t, e), m, ds, out)
    requires LambdasFrom(Lambdas(FIf(c, t, e)), ls, i, Within(m, fin, out))
    ensures Renames(FIf(c, t, e), Fill(k, ls), m, ds, fin, out)
    decreases FIf(c, t, e), 0
  {
    hide LambdasFrom, Lambdas, Matches, Fill, Renames, Defined, Refers, Within;
    IfUnfold(k, c, t, e, m, i);
    IfRefers(k, c, t, e, m, ds, out);
    LambdasSplit(Lambdas(c) + Lambdas(t), Lambdas(e), ls, i, Within(m, fin, out));
    LambdasSplit(Lambdas(c), Lambdas(t), ls, i, Within(m, fin, out));
    FilledRenames(k.c, c, m, i, ls, ds, fin, out);
    FilledRenames(k.t, t, m, i + |Lambdas(c)|, ls, ds + Defined(c), fin, out);
    FilledRenames(k.f, e, m, i + |Lambdas(c)| + |Lambdas(t)|, ls, ds + Defined(c) + Defined(t), fin, out);
    IfRenames(k, c, t, e, m, ls, ds, fin, out);
  }

  lemma IfRefers(k: Skeleton, c: Form, t: Form, e: Form, m: map<Ident, Name>, ds: seq<string>, out: string -> Name)
    ensures Refers(k, FIf(c, t, e), m, ds, out) <==>
      && k.KIf? && Refers(k.c, c, m, ds, out) && Refers(k.t, t, m, ds + Defined(c), out)
      && Refers(k.f, e, m, ds + Defined(c) + Defined(t), out)
  {
    hide Defined;
  }

  lemma IfRenames(k: Skeleton, c: Form, t: Form, e: Form, m: map<Ident, Name>, ls: seq<Core>, ds: seq<string>,
                  fin: seq<string>, out: string -> Name)
    requires k.KIf? && Renames(c, Fill(k.c, ls), m, ds, fin, out)
      && Renames(t, Fill(k.t, ls), m, ds + Defined(c), fin, out)
    requires Renames(e, Fill(k.f, ls), m, ds + Defined(c) + Defined(t), fin, out)
    ensures Renames(FIf(c, t, e), Fill(k, ls), m, ds, fin, out)
  {
    hide Defined;
  }

  lemma OneLambda(f: Form, ls: seq<Core>, i: nat, out: string -> Name)
    requires LambdasFrom([f], ls, i, out)
    ensures i < |ls| && RenamesLambda(f, ls[i], out)
  {
    hide RenamesLambda;
    assert RenamesLambda([f][i - i], ls[i], out);
  }

  lemma {:induction false} AllFilledRenames(ks: seq<Skeleton>, fs: seq<Form>, m: map<Ident, Name>, i: nat,
                                            ls: seq<Core>, ds: seq<string>, fin: seq<string>, out: string -> Name)
    requires MatchesAll(ks, fs, m, i) && RefersAll(ks, fs, m, ds, out)
      && LambdasFrom(LambdasAll(fs), ls, i, Within(m, fin, out))
    ensures RenamesAll(fs, FillAll(ks, ls), m, ds, fin, out)
    decreases fs, 0
  {
    hide LambdasFrom, Refer, Within, Defined, RenamesLambda, Renames, Fill, Matches, Refers, Lambdas;
    if fs != [] {
      assert FillAll(ks, ls)[0] == Fill(ks[0], ls) && FillAll(ks, ls)[1..] == FillAll(ks[1..], ls);
      LambdasSplit(Lambdas(fs[0]), LambdasAll(fs[1..]), ls, i, Within(m, fin, out));
      FilledRenames(ks[0], fs[0], m, i, ls, ds, fin, out);
      AllFilledRenames(ks[1..], fs[1..], m, i + |Lambdas(fs[0])|, ls, ds + Defined(fs[0]), fin, out);
    }
  }

  // ---------- sizes ----------

  function Size(f: Form): (n: nat)
    ensures n > 0
    decreases f, 1
  {
    match f
    case FQuote(_) | FVar(_) => 1
    case FSet(_, e) => 1 + Size(e)
    case FIf(c, t, e) => 1 + Size(c) + Size(t) + Size(e)
    case FBegin(a, b) => 1 + Size(a) + Size(b)
    case FDefine(_, e) => 1 + Size(e)
    case FLambda(_, _, b) => 1 + Size(b)
    case FCall(fn, args) => 1 + Size(fn) + SizeAll(args)
  }

  function SizeAll(fs: seq<Form>): nat
    decreases fs, 0
  {
    if fs == [] then 0 else Size(fs[0]) + SizeAll(fs[1..])
  }

  lemma {:induction false} LambdasSmaller(f: Form)
    ensures forall l :: l in Lambdas(f) ==> l.FLambda? && Size(l) <= Size(f)
    decreases f, 1
  {
    match f
    case FQuote(_) | FVar(_) | FLambda(_, _, _) =>
    case FSet(_, e) => LambdasSmaller(e);
    case FIf(c, t, e) => LambdasSmaller(c); LambdasSmaller(t); LambdasSmaller(e);
    case FBegin(a, b) => LambdasSmaller(a); LambdasSmaller(b);
    case FDefine(_, e) => LambdasSmaller(e);
    case FCall(fn, args) => LambdasSmaller(fn); LambdasAllSmaller(args);
  }

  lemma {:induction false} LambdasAllSmaller(fs: seq<Form>)
    ensures forall l :: l in LambdasAll(fs) ==> l.FLambda? && Size(l) <= SizeAll(fs)
    decreases fs, 0
  {
    if fs != [] {
      LambdasSmaller(fs[0]);
      LambdasAllSmaller(fs[1..]);
    }
  }

  // ---------- the expander ----------

  /** The names of an environment: in the scope of a lambda, names made between two counts, all different; in an
      outermost environment, the identifiers `all` have no names but their own. */
  ghost predicate Scope(m: map<Ident, Name>, outermost: bool, prefix: string, all: set<string>, lo: nat, hi: nat) {
    if outermost then forall x :: x in all && Symbol(x) in m ==> m[Symbol(x)] == prefix + x
    else (forall x :: x in m ==> MadeIn(m[x], lo, hi)) && forall x, y :: x in m && y in m && m[x] == m[y] ==> x == y
  }

  lemma ScopeNext(m: map<Ident, Name>, outermost: bool, prefix: string, all: set<string>, lo: nat, c: nat, x: string,
                  uid: Name, hi: nat)
    requires Scope(m, outermost, prefix, all, lo, c) && lo <= c <= hi
    requires if Symbol(x) in m then uid == m[Symbol(x)] else if outermost then uid == prefix + x else MadeIn(uid, c, hi)
    ensures Scope(m[Symbol(x) := uid], outermost, prefix, all, lo, hi)
    ensures Extends(m, m[Symbol(x) := uid])
  {
    hide MadeIn;
    if !outermost {
      forall y | y in m ensures MadeIn(m[y], lo, hi) { Later(m[y], lo, c, hi); }
      if Symbol(x) !in m {
        forall y | y in m ensures m[y] != uid { ApartInTime(m[y], lo, c, uid, hi); }
        Earlier(uid, lo, c, hi);
      }
    }
  }

  /** The identifiers `ds` have names in this environment, all others are called as `out` says. */
  ghost predicate Knows(env: Env, ds: seq<string>, out: string -> Name)
    requires env.Linked()
    reads env.Chain()
  {
    (forall x :: x in ds ==> Symbol(x) in env.uids) && forall x :: x !in ds ==> env.NameOf(x) == out(x)
  }

  /** An environment in which code is being expanded. */
  ghost predicate Ready(env: Env, all: set<string>, lo: nat, hi: nat, ds: seq<string>, out: string -> Name)
    requires env.Linked()
    reads env.Chain()
  {
    lo <= hi && Scope(env.uids, env.up == null, env.prefix, all, lo, hi) && Knows(env, ds, out)
  }

  lemma GainsTrans(m: map<Ident, Name>, m1: map<Ident, Name>, m2: map<Ident, Name>, prefix: string)
    requires Gains(m, m1, prefix) && Gains(m1, m2, prefix)
    ensures Gains(m, m2, prefix)
  {
  }

  /** What is called how, after the outermost environment has learned some names. */
  lemma CallsKept(env: Env, tables: map<Env, map<Ident, Name>>)
    requires env.Linked() && forall d :: d in env.Chain() ==> d in tables
    requires forall d :: d in env.Chain() && d.up != null ==> d.uids == tables[d]
    requires env.Top() in tables && Gains(tables[env.Top()], env.Top().uids, env.Top().prefix)
    ensures forall x :: env.NameOf(x) == NameIn(env, tables, x)
  {
    hide Gains;
    forall x ensures env.NameOf(x) == NameIn(env, tables, x) { NameStays(env, tables, x); }
  }

  lemma CallsAre(env: Env)
    requires env.Linked()
    ensures forall x :: env.NameOf(x) == NameIn(env, Tables(env), x)
    ensures env.Top() in env.Chain()
  {
    env.TopInChain();
    forall x ensures env.NameOf(x) == NameIn(env, Tables(env), x) { NameIs(env, Tables(env), x); }
  }

  /** `expand_define` names the variable first. */
  method NameDefined(ex: Expander, env: Env, x: string, ghost all: set<string>, ghost lo: nat, ghost ds: seq<string>,
                     ghost out: string -> Name)
    returns (uid: Name)
    requires env.Linked() && Ready(env, all, lo, ex.ucnt, ds, out)
    modifies ex, env`uids
    ensures old(ex.ucnt) <= ex.ucnt && Ready(env, all, lo, ex.ucnt, ds + [x], out)
    ensures Extends(old(env.uids), env.uids) && Symbol(x) in env.uids && env.uids[Symbol(x)] == uid
    ensures Gains(old(env.Top().uids), env.Top().uids, env.Top().prefix) && (env.up == null ==> ex.ucnt == old(ex.ucnt))
  {
    hide Scope, MadeIn;
    env.ChainAllocated();
    ghost var around: map<Env, map<Ident, Name>> := map[];
    if env.up != null {
      around := Tables(env.up);
      CallsAre(env.up);
      env.up.ChainAllocated();
    }
    uid := ex.AddIdentifier(env, Symbol(x));
    ScopeNext(old(env.uids), env.up == null, env.prefix, all, lo, old(ex.ucnt), x, uid, ex.ucnt);
    assert env.uids == old(env.uids)[Symbol(x) := uid];
    if env.up != null {
      forall d | d in env.up.Chain() ensures d.uids == around[d] {
        assert d.depth <= env.up.depth < env.depth;
      }
      CallsKept(env.up, around);
    }
    forall y | y !in ds + [x] ensures env.NameOf(y) == out(y) {
      assert y !in ds && old(env.NameOf(y)) == out(y);
    }
  }

  /** A reference; the outermost environment may learn a new variable. */
  method NameUsed(ex: Expander, env: Env, x: string, ghost all: set<string>, ghost lo: nat, ghost ds: seq<string>,
                  ghost out: string -> Name)
    returns (uid: Name)
    requires env.Linked() && Ready(env, all, lo, ex.ucnt, ds, out)
    modifies ex, env`uids, env.Top()`uids
    ensures ex.ucnt == old(ex.ucnt) && Ready(env, all, lo, ex.ucnt, ds, out) && Refer(uid, x, env.uids, ds, out)
    ensures Extends(old(env.uids), env.uids) && Gains(old(env.Top().uids), env.Top().uids, env.Top().prefix)
  {
    hide Scope, MadeIn;
    ghost var tables := Tables(env);
    CallsAre(env);
    env.ChainAllocated();
    uid := ex.FindIdentifier(env, x);
    if env.up == null && Symbol(x) !in old(env.uids) {
      ScopeNext(old(env.uids), true, env.prefix, all, lo, ex.ucnt, x, uid, ex.ucnt);
    }
    CallsKept(env, tables);
  }

  /** `expand` in one environment: lambdas are put off, everything else is expanded from left to right. */
  method Expand(ex: Expander, f: Form, env: Env, d: seq<Form>, ghost all: set<string>, ghost lo: nat,
                ghost ds: seq<string>,
                ghost out: string -> Name)
    returns (k: Skeleton, d1: seq<Form>)
    requires env.Linked() && Ready(env, all, lo, ex.ucnt, ds, out)
    modifies ex, env`uids, env.Top()`uids
    ensures old(ex.ucnt) <= ex.ucnt && Ready(env, all, lo, ex.ucnt, ds + Defined(f), out)
    ensures Extends(old(env.uids), env.uids) && (env.up == null ==> ex.ucnt == old(ex.ucnt))
    ensures Gains(old(env.Top().uids), env.Top().uids, env.Top().prefix)
    ensures d1 == d + Lambdas(f) && Matches(k, f, env.uids, |d|) && Refers(k, f, env.uids, ds, out)
    decreases f, 1
  {
    hide Ready, Matches, Refers, Lambdas, Gains, Extends, Refer, Defined;
    match f
    case FQuote(q) =>
      k, d1 := KQuote(q), d;
      QuoteMatches(k, f, env.uids, |d|, ds, out);
      NoChange(env.uids, env.Top().uids, env.Top().prefix);
      assert ds + Defined(f) == ds;
    case FVar(x) =>
      var uid := NameUsed(ex, env, x, all, lo, ds, out);
      k, d1 := KVar(uid), d;
      QuoteMatches(k, f, env.uids, |d|, ds, out);
      assert ds + Defined(f) == ds;
    case FSet(x, e) =>
      k, d1 := ExpandSet(ex, x, e, env, d, all, lo, ds, out);
    case FIf(c, t, e) =>
      k, d1 := ExpandIf(ex, c, t, e, env, d, all, lo, ds, out);
    case FBegin(a, b) =>
      k, d1 := ExpandBegin(ex, a, b, env, d, all, lo, ds, out);
    case FDefine(x, e) =>
      k, d1 := ExpandDefine(ex, x, e, env, d, all, lo, ds, out);
    case FLambda(_, _, _) =>
      k, d1 := KHole(|d|), d + [f];
      HoleMatches(f, env.uids, |d|, ds, out);
      NoChange(env.uids, env.Top().uids, env.Top().prefix);
      assert ds + Defined(f) == ds;
    case FCall(fn, args) =>
      k, d1 := ExpandCall(ex, fn, args, env, d, all, lo, ds, out);
  }

  method ExpandSet(ex: Expander, x: string, e: Form, env: Env, d: seq<Form>, ghost all: set<string>, ghost lo: nat,
                ghost ds: seq<string>, ghost out: string -> Name)
    returns (k: Skeleton, d1: seq<Form>)
    requires env.Linked() && Ready(env, all, lo, ex.ucnt, ds, out)
    modifies ex, env`uids, env.Top()`uids
    ensures old(ex.ucnt) <= ex.ucnt && Ready(env, all, lo, ex.ucnt, ds + Defined(FSet(x, e)), out)
    ensures Extends(old(env.uids), env.uids) && (env.up == null ==> ex.ucnt == old(ex.ucnt))
    ensures Gains(old(env.Top().uids), env.Top().uids, env.Top().prefix)
    ensures d1 == d + Lambdas(FSet(x, e)) && Matches(k, FSet(x, e), env.uids, |d|)
      && Refers(k, FSet(x, e), env.uids, ds, out)
    decreases FSet(x, e), 0
  {
    hide Ready, Matches, MatchesAll, Refers, RefersAll, Lambdas, LambdasAll, Gains, Extends, Refer, Defined, DefinedAll;
    ghost var f, m0, t0 := FSet(x, e), env.uids, env.Top().uids;
    var uid := NameUsed(ex, env, x, all, lo, ds, out);
    ghost var m1, t1 := env.uids, env.Top().uids;
    var k1;
    k1, d1 := Expand(ex, e, env, d, all, lo, ds, out);
    k := KSet(uid, k1);
    Growing(m0, m1, env.uids, t0, t1, env.Top().uids, env.Top().prefix);
    ReferMore(uid, x, m1, env.uids, ds, out);
    SetMatches(k, f, env.uids, |d|, ds, out);
  }

  method ExpandBegin(ex: Expander, a: Form, b: Form, env: Env, d: seq<Form>, ghost all: set<string>, ghost lo: nat,
                ghost ds: seq<string>, ghost out: string -> Name)
    returns (k: Skeleton, d1: seq<Form>)
    requires env.Linked() && Ready(env, all, lo, ex.ucnt, ds, out)
    modifies ex, env`uids, env.Top()`uids
    ensures old(ex.ucnt) <= ex.ucnt && Ready(env, all, lo, ex.ucnt, ds + Defined(FBegin(a, b)), out)
    ensures Extends(old(env.uids), env.uids) && (env.up == null ==> ex.ucnt == old(ex.ucnt))
    ensures Gains(old(env.Top().uids), env.Top().uids, env.Top().prefix)
    ensures d1 == d + Lambdas(FBegin(a, b)) && Matches(k, FBegin(a, b), env.uids, |d|)
      && Refers(k, FBegin(a, b), env.uids, ds, out)
    decreases FBegin(a, b), 0
  {
    hide Ready, Matches, MatchesAll, Refers, RefersAll, Lambdas, LambdasAll, Gains, Extends, Refer, Defined, DefinedAll;
    ghost var f, m0, t0 := FBegin(a, b), env.uids, env.Top().uids;
    var k1, k2;
    k1, d1 := Expand(ex, a, env, d, all, lo, ds, out);
    ghost var m1, t1 := env.uids, env.Top().uids;
    k2, d1 := Expand(ex, b, env, d1, all, lo, ds + Defined(a), out);
    k := KBegin(k1, k2);
    Growing(m0, m1, env.uids, t0, t1, env.Top().uids, env.Top().prefix);
    PartMore(k1, a, m1, env.uids, |d|, ds, out);
    BeginMatches(k, f, env.uids, |d|, ds, out);
    assert ds + Defined(a) + Defined(b) == ds + (Defined(a) + Defined(b));
    assert d + Lambdas(a) + Lambdas(b) == d + (Lambdas(a) + Lambdas(b));
  }

  method ExpandIf(ex: Expander, c: Form, t: Form, e: Form, env: Env, d: seq<Form>, ghost all: set<string>,
                  ghost lo: nat,
                ghost ds: seq<string>, ghost out: string -> Name)
    returns (k: Skeleton, d1: seq<Form>)
    requires env.Linked() && Ready(env, all, lo, ex.ucnt, ds, out)
    modifies ex, env`uids, env.Top()`uids
    ensures old(ex.ucnt) <= ex.ucnt && Ready(env, all, lo, ex.ucnt, ds + Defined(FIf(c, t, e)), out)
    ensures Extends(old(env.uids), env.uids) && (env.up == null ==> ex.ucnt == old(ex.ucnt))
    ensures Gains(old(env.Top().uids), env.Top().uids, env.Top().prefix)
    ensures d1 == d + Lambdas(FIf(c, t, e)) && Matches(k, FIf(c, t, e), env.uids, |d|)
      && Refers(k, FIf(c, t, e), env.uids, ds, out)
    decreases FIf(c, t, e), 0
  {
    hide Ready, Matches, MatchesAll, Refers, RefersAll, Lambdas, LambdasAll, Gains, Extends, Refer, Defined, DefinedAll;
    ghost var f, m0, t0 := FIf(c, t, e), env.uids, env.Top().uids;
    var k1, k2, k3;
    k1, d1 := Expand(ex, c, env, d, all, lo, ds, out);
    ghost var m1, t1 := env.uids, env.Top().uids;
    k2, d1 := Expand(ex, t, env, d1, all, lo, ds + Defined(c), out);
    ghost var m2, t2 := env.uids, env.Top().uids;
    Growing(m0, m1, m2, t0, t1, t2, env.Top().prefix);
    k3, d1 := Expand(ex, e, env, d1, all, lo, ds + Defined(c) + Defined(t), out);
    k := KIf(k1, k2, k3);
    Growing(m0, m2, env.uids, t0, t2, env.Top().uids, env.Top().prefix);
    Growing(m1, m2, env.uids, t1, t2, env.Top().uids, env.Top().prefix);
    PartMore(k1, c, m1, env.uids, |d|, ds, out);
    PartMore(k2, t, m2, env.uids, |d| + |Lambdas(c)|, ds + Defined(c), out);
    IfMatches(k, f, env.uids, |d|, ds, out);
    assert ds + Defined(c) + Defined(t) + Defined(e) == ds + (Defined(c) + Defined(t) + Defined(e));
    assert d + Lambdas(c) + Lambdas(t) + Lambdas(e) == d + (Lambdas(c) + Lambdas(t) + Lambdas(e));
  }

  method ExpandDefine(ex: Expander, x: string, e: Form, env: Env, d: seq<Form>, ghost all: set<string>, ghost lo: nat,
                ghost ds: seq<string>, ghost out: string -> Name)
    returns (k: Skeleton, d1: seq<Form>)
    requires env.Linked() && Ready(env, all, lo, ex.ucnt, ds, out)
    modifies ex, env`uids, env.Top()`uids
    ensures old(ex.ucnt) <= ex.ucnt && Ready(env, all, lo, ex.ucnt, ds + Defined(FDefine(x, e)), out)
    ensures Extends(old(env.uids), env.uids) && (env.up == null ==> ex.ucnt == old(ex.ucnt))
    ensures Gains(old(env.Top().uids), env.Top().uids, env.Top().prefix)
    ensures d1 == d + Lambdas(FDefine(x, e)) && Matches(k, FDefine(x, e), env.uids, |d|)
      && Refers(k, FDefine(x, e), env.uids, ds, out)
    decreases FDefine(x, e), 0
  {
    hide Ready, Matches, MatchesAll, Refers, RefersAll, Lambdas, LambdasAll, Gains, Extends, Refer, Defined, DefinedAll;
    ghost var f, m0, t0 := FDefine(x, e), env.uids, env.Top().uids;
    var uid := NameDefined(ex, env, x, all, lo, ds, out);
    ghost var m1, t1 := env.uids, env.Top().uids;
    var k1;
    k1, d1 := Expand(ex, e, env, d, all, lo, ds + [x], out);
    k := KDefine(uid, k1);
    Growing(m0, m1, env.uids, t0, t1, env.Top().uids, env.Top().prefix);
    StillNamed(m1, env.uids, x);
    DefineMatches(k, f, env.uids, |d|, ds, out);
    assert ds + [x] + Defined(e) == ds + ([x] + Defined(e));
  }

  method ExpandCall(ex: Expander, fn: Form, args: seq<Form>, env: Env, d: seq<Form>, ghost all: set<string>,
                    ghost lo: nat,
                ghost ds: seq<string>, ghost out: string -> Name)
    returns (k: Skeleton, d1: seq<Form>)
    requires env.Linked() && Ready(env, all, lo, ex.ucnt, ds, out)
    modifies ex, env`uids, env.Top()`uids
    ensures old(ex.ucnt) <= ex.ucnt && Ready(env, all, lo, ex.ucnt, ds + Defined(FCall(fn, args)), out)
    ensures Extends(old(env.uids), env.uids) && (env.up == null ==> ex.ucnt == old(ex.ucnt))
    ensures Gains(old(env.Top().uids), env.Top().uids, env.Top().prefix)
    ensures d1 == d + Lambdas(FCall(fn, args)) && Matches(k, FCall(fn, args), env.uids, |d|)
      && Refers(k, FCall(fn, args), env.uids, ds, out)
    decreases FCall(fn, args), 0
  {
    hide Ready, Matches, MatchesAll, Refers, RefersAll, Lambdas, LambdasAll, Gains, Extends, Refer, Defined, DefinedAll;
    ghost var f, m0, t0 := FCall(fn, args), env.uids, env.Top().uids;
    var k1, ks;
    k1, d1 := Expand(ex, fn, env, d, all, lo, ds, out);
    ghost var m1, t1 := env.uids, env.Top().uids;
    ks, d1 := ExpandAll(ex, args, env, d1, all, lo, ds + Defined(fn), out);
    k := KCall(k1, ks);
    Growing(m0, m1, env.uids, t0, t1, env.Top().uids, env.Top().prefix);
    PartMore(k1, fn, m1, env.uids, |d|, ds, out);
    CallMatches(k, f, env.uids, |d|, ds, out);
    assert ds + Defined(fn) + DefinedAll(args) == ds + (Defined(fn) + DefinedAll(args));
    assert d + Lambdas(fn) + LambdasAll(args) == d + (Lambdas(fn) + LambdasAll(args));
  }

  method ExpandAll(ex: Expander, fs: seq<Form>, env: Env, d: seq<Form>, ghost all: set<string>, ghost lo: nat,
                   ghost ds: seq<string>,
                   ghost out: string -> Name)
    returns (ks: seq<Skeleton>, d1: seq<Form>)
    requires env.Linked() && Ready(env, all, lo, ex.ucnt, ds, out)
    modifies ex, env`uids, env.Top()`uids
    ensures old(ex.ucnt) <= ex.ucnt && Ready(env, all, lo, ex.ucnt, ds + DefinedAll(fs), out)
    ensures Extends(old(env.uids), env.uids) && (env.up == null ==> ex.ucnt == old(ex.ucnt))
    ensures Gains(old(env.Top().uids), env.Top().uids, env.Top().prefix)
    ensures d1 == d + LambdasAll(fs) && MatchesAll(ks, fs, env.uids, |d|) && RefersAll(ks, fs, env.uids, ds, out)
    decreases fs, 0
  {
    hide Ready, Matches, Refers, Lambdas, Gains, Extends, Refer, Defined;
    ghost var m0, t0 := env.uids, env.Top().uids;
    if fs == [] {
      ks, d1 := [], d;
      NoChange(m0, t0, env.Top().prefix);
      assert ds + DefinedAll(fs) == ds;
    } else {
      var k1, ks1;
      k1, d1 := Expand(ex, fs[0], env, d, all, lo, ds, out);
      ghost var m1, t1 := env.uids, env.Top().uids;
      ks1, d1 := ExpandAll(ex, fs[1..], env, d1, all, lo, ds + Defined(fs[0]), out);
      ks := [k1] + ks1;
      Growing(m0, m1, env.uids, t0, t1, env.Top().uids, env.Top().prefix);
      PartMore(k1, fs[0], m1, env.uids, |d|, ds, out);
      assert ds + Defined(fs[0]) + DefinedAll(fs[1..]) == ds + (Defined(fs[0]) + DefinedAll(fs[1..]));
      assert d + Lambdas(fs[0]) + LambdasAll(fs[1..]) == d + (Lambdas(fs[0]) + LambdasAll(fs[1..]));
    }
  }

  lemma NoChange(m: map<Ident, Name>, t: map<Ident, Name>, prefix: string)
    ensures Extends(m, m) && Gains(t, t, prefix)
  {
  }

  lemma Growing(m: map<Ident, Name>, m1: map<Ident, Name>, m2: map<Ident, Name>, t: map<Ident, Name>,
                t1: map<Ident, Name>, t2: map<Ident, Name>, prefix: string)
    requires Extends(m, m1) && Extends(m1, m2) && Gains(t, t1, prefix) && Gains(t1, t2, prefix)
    ensures Extends(m, m2) && Gains(t, t2, prefix)
  {
  }

  lemma ReferMore(n: Name, x: string, m: map<Ident, Name>, m1: map<Ident, Name>, ds: seq<string>, out: string -> Name)
    requires Refer(n, x, m, ds, out) && Extends(m, m1)
    ensures Refer(n, x, m1, ds, out)
  {
  }

  lemma StillNamed(m: map<Ident, Name>, m1: map<Ident, Name>, x: string)
    requires Symbol(x) in m && Extends(m, m1)
    ensures Symbol(x) in m1 && m1[Symbol(x)] == m[Symbol(x)]
  {
  }

  lemma PartMore(k: Skeleton, f: Form, m: map<Ident, Name>, m1: map<Ident, Name>, i: nat, ds: seq<string>,
                 out: string -> Name)
    requires Matches(k, f, m, i) && Refers(k, f, m, ds, out) && Extends(m, m1)
    ensures Matches(k, f, m1, i) && Refers(k, f, m1, ds, out)
  {
    hide Matches, Refers, Extends;
    MatchesMore(k, f, m, m1, i);
    RefersMore(k, f, m, m1, ds, out);
  }

  lemma QuoteMatches(k: Skeleton, f: Form, m: map<Ident, Name>, i: nat, ds: seq<string>, out: string -> Name)
    requires (f.FQuote? && k == KQuote(f.d)) || (f.FVar? && k.KVar? && Refer(k.x, f.x, m, ds, out))
    ensures Matches(k, f, m, i) && Refers(k, f, m, ds, out) && Lambdas(f) == [] && Defined(f) == []
  {
  }

  lemma SetMatches(k: Skeleton, f: Form, m: map<Ident, Name>, i: nat, ds: seq<string>, out: string -> Name)
    requires f.FSet? && k.KSet? && Refer(k.x, f.x, m, ds, out) && Matches(k.e, f.e, m, i)
      && Refers(k.e, f.e, m, ds, out)
    ensures Matches(k, f, m, i) && Refers(k, f, m, ds, out) && Lambdas(f) == Lambdas(f.e) && Defined(f) == Defined(f.e)
  {
  }

  lemma DefineMatches(k: Skeleton, f: Form, m: map<Ident, Name>, i: nat, ds: seq<string>, out: string -> Name)
    requires f.FDefine? && k.KDefine? && Symbol(f.x) in m && k.x == m[Symbol(f.x)] && Matches(k.e, f.e, m, i)
    requires Refers(k.e, f.e, m, ds + [f.x], out)
    ensures Matches(k, f, m, i) && Refers(k, f, m, ds, out) && Lambdas(f) == Lambdas(f.e)
      && Defined(f) == [f.x] + Defined(f.e)
  {
  }

  lemma HoleMatches(f: Form, m: map<Ident, Name>, i: nat, ds: seq<string>, out: string -> Name)
    requires f.FLambda?
    ensures Matches(KHole(i), f, m, i) && Refers(KHole(i), f, m, ds, out) && Lambdas(f) == [f] && Defined(f) == []
  {
  }

  lemma BeginMatches(k: Skeleton, f: Form, m: map<Ident, Name>, i: nat, ds: seq<string>, out: string -> Name)
    requires f.FBegin? && k.KBegin? && Matches(k.e1, f.e1, m, i) && Matches(k.e2, f.e2, m, i + |Lambdas(f.e1)|)
    requires Refers(k.e1, f.e1, m, ds, out) && Refers(k.e2, f.e2, m, ds + Defined(f.e1), out)
    ensures Matches(k, f, m, i) && Refers(k, f, m, ds, out)
    ensures Lambdas(f) == Lambdas(f.e1) + Lambdas(f.e2) && Defined(f) == Defined(f.e1) + Defined(f.e2)
  {
  }

  lemma IfMatches(k: Skeleton, f: Form, m: map<Ident, Name>, i: nat, ds: seq<string>, out: string -> Name)
    requires f.FIf? && k.KIf? && Matches(k.c, f.c, m, i) && Matches(k.t, f.t, m, i + |Lambdas(f.c)|)
    requires Matches(k.f, f.f, m, i + |Lambdas(f.c)| + |Lambdas(f.t)|)
    requires Refers(k.c, f.c, m, ds, out) && Refers(k.t, f.t, m, ds + Defined(f.c), out)
    requires Refers(k.f, f.f, m, ds + Defined(f.c) + Defined(f.t), out)
    ensures Matches(k, f, m, i) && Refers(k, f, m, ds, out)
    ensures Lambdas(f) == Lambdas(f.c) + Lambdas(f.t) + Lambdas(f.f)
      && Defined(f) == Defined(f.c) + Defined(f.t) + Defined(f.f)
  {
    IfMatched(k, f, m, i);
    IfRefers(k, f.c, f.t, f.f, m, ds, out);
    hide Matches, Refers;
  }

  lemma IfMatched(k: Skeleton, f: Form, m: map<Ident, Name>, i: nat)
    requires f.FIf? && k.KIf? && Matches(k.c, f.c, m, i) && Matches(k.t, f.t, m, i + |Lambdas(f.c)|)
    requires Matches(k.f, f.f, m, i + |Lambdas(f.c)| + |Lambdas(f.t)|)
    ensures Matches(k, f, m, i)
  {
  }

  lemma CallMatches(k: Skeleton, f: Form, m: map<Ident, Name>, i: nat, ds: seq<string>, out: string -> Name)
    requires f.FCall? && k.KCall? && Matches(k.fn, f.fn, m, i) && MatchesAll(k.args, f.args, m, i + |Lambdas(f.fn)|)
    requires Refers(k.fn, f.fn, m, ds, out) && RefersAll(k.args, f.args, m, ds + Defined(f.fn), out)
    ensures Matches(k, f, m, i) && Refers(k, f, m, ds, out)
    ensures Lambdas(f) == Lambdas(f.fn) + LambdasAll(f.args) && Defined(f) == Defined(f.fn) + DefinedAll(f.args)
  {
  }

  // ---------- lambdas ----------

  /** Every name was made between two counts. */
  ghost predicate AllMadeIn(xs: seq<Name>, lo: nat, hi: nat) {
    forall x :: x in xs ==> MadeIn(x, lo, hi)
  }

  /** The expanded lambdas: with the names of their identifiers, with binders made between two counts, no binder in
      two of them, and none twice in one where the program has none twice in a scope. */
  ghost predicate Expanded(gs: seq<Form>, ls: seq<Core>, lo: nat, hi: nat, out: string -> Name) {
    && |ls| == |gs|
    && (forall i :: 0 <= i < |ls| ==> RenamesLambda(gs[i], ls[i], out) && AllMadeIn(Distinct.Binders(ls[i]), lo, hi))
    && (forall i :: 0 <= i < |ls| && WellScoped(gs[i]) ==> NoDup(Distinct.Binders(ls[i])))
    && (forall i, j, x :: 0 <= i < j < |ls| && x in Distinct.Binders(ls[i]) ==> x !in Distinct.Binders(ls[j]))
  }

  lemma ExpandedNext(gs: seq<Form>, ls: seq<Core>, lo: nat, c: nat, g: Form, l: Core, hi: nat, out: string -> Name)
    requires Expanded(gs, ls, lo, c, out) && lo <= c <= hi && RenamesLambda(g, l, out)
      && AllMadeIn(Distinct.Binders(l), c, hi)
    requires WellScoped(g) ==> NoDup(Distinct.Binders(l))
    ensures Expanded(gs + [g], ls + [l], lo, hi, out)
  {
    hide RenamesLambda, Distinct.Binders, WellScoped, MadeIn, NoDup;
    var ls1 := ls + [l];
    forall i, x | 0 <= i < |ls1| && x in Distinct.Binders(ls1[i]) ensures MadeIn(x, lo, hi) {
      if i < |ls| { Later(x, lo, c, hi); } else { Earlier(x, lo, c, hi); }
    }
    forall i, j, x | 0 <= i < j < |ls1| && x in Distinct.Binders(ls1[i]) ensures x !in Distinct.Binders(ls1[j]) {
      if j == |ls| && x in Distinct.Binders(l) { ApartInTime(x, lo, c, x, hi); }
    }
  }

  /** A scope with names for the formals. */
  method OpenScope(ex: Expander, env: Env, formals: seq<string>, ghost out: string -> Name)
    returns (inner: Env, names: seq<Name>)
    requires env.Linked() && forall x :: env.NameOf(x) == out(x)
    modifies ex
    ensures fresh(inner) && inner.Linked() && inner.up == env && BindsFormals(inner.uids, formals, names)
    ensures old(ex.ucnt) <= ex.ucnt && Ready(inner, {}, old(ex.ucnt), ex.ucnt, formals, out)
  {
    hide Scope, Named, Knows;
    ghost var lo := ex.ucnt;
    env.ChainAllocated();
    inner, names := ex.AddFormals(env, Symbols(formals));
    NamedScope(inner.uids, Symbols(formals), names, inner.prefix, {}, lo, ex.ucnt);
    FormalsKnown(inner, env, formals, names, lo, ex.ucnt, out);
  }

  /** The body of a lambda in its scope, and then the lambdas of the body. */
  method ExpandInner(ex: Expander, f: Form, inner: Env, names: seq<Name>, ghost lo: nat, ghost out: string -> Name)
    returns (c: Core)
    requires f.FLambda? && inner.Linked() && inner.up != null
      && BindsFormals(inner.uids, FormalsOf(f.params, f.rest), names)
    requires Ready(inner, {}, lo, ex.ucnt, FormalsOf(f.params, f.rest), out)
    modifies ex, inner`uids, inner.Top()`uids
    ensures old(ex.ucnt) <= ex.ucnt && RenamesLambda(f, c, out) && AllMadeIn(Distinct.Binders(c), lo, ex.ucnt)
    ensures WellScoped(f) ==> NoDup(Distinct.Binders(c))
    ensures Gains(old(inner.Top().uids), inner.Top().uids, inner.Top().prefix)
    decreases Size(f), 0
  {
    hide Ready, Scope, Matches, Refers, Lambdas, RenamesLambda, WellScoped, Distinct.Binders, Expanded, AllMadeIn,
      Gains, Extends, Defined, Within, BindsFormals;
    var formals := FormalsOf(f.params, f.rest);
    ghost var m0, t0 := inner.uids, inner.Top().uids;
    var k, d := Expand(ex, f.body, inner, [], {}, lo, formals, out);
    ghost var m, mid, t1, fin := inner.uids, ex.ucnt, inner.Top().uids, formals + Defined(f.body);
    ReadyParts(inner, {}, lo, mid, fin, out);
    FormalsStay(m0, m, formals, names);
    LambdasSmaller(f.body);
    assert d == Lambdas(f.body);
    WithinIs(inner, fin, out);
    var ls := ExpandDeferred(ex, d, inner, Within(m, fin, out), Size(f.body));
    c := CLambda(names[..|f.params|], if f.rest.Some? then Some(names[|f.params|]) else None, Fill(k, ls));
    LambdaDone(f, c, inner.prefix, m, names, k, ls, lo, mid, ex.ucnt, out);
    GainsTrans(t0, t1, inner.Top().uids, inner.Top().prefix);
  }

  lemma ReadyParts(env: Env, all: set<string>, lo: nat, hi: nat, ds: seq<string>, out: string -> Name)
    requires env.Linked() && Ready(env, all, lo, hi, ds, out)
    ensures lo <= hi && Scope(env.uids, env.up == null, env.prefix, all, lo, hi) && Knows(env, ds, out)
  {
  }

  /** `expand_lambda`: a scope for the formals, the body in it, and then the lambdas of the body. */
  method ExpandLambda(ex: Expander, f: Form, env: Env, ghost out: string -> Name) returns (c: Core)
    requires env.Linked() && f.FLambda? && forall x :: env.NameOf(x) == out(x)
    modifies ex, env.Top()`uids
    ensures old(ex.ucnt) <= ex.ucnt && RenamesLambda(f, c, out) && AllMadeIn(Distinct.Binders(c), old(ex.ucnt), ex.ucnt)
    ensures WellScoped(f) ==> NoDup(Distinct.Binders(c))
    ensures Gains(old(env.Top().uids), env.Top().uids, env.Top().prefix) && forall x :: env.NameOf(x) == out(x)
    decreases Size(f), 1
  {
    hide Ready, RenamesLambda, WellScoped, Distinct.Binders, AllMadeIn, Gains, BindsFormals, NameIn;
    ghost var tables := Tables(env);
    CallsAre(env);
    env.ChainAllocated();
    var inner, names := OpenScope(ex, env, FormalsOf(f.params, f.rest), out);
    c := ExpandInner(ex, f, inner, names, old(ex.ucnt), out);
    CallsKept(env, tables);
  }

  /** `expand_deferred`. */
  method ExpandDeferred(ex: Expander, gs: seq<Form>, env: Env, ghost out: string -> Name, ghost n: nat)
    returns (ls: seq<Core>)
    requires env.Linked() && (forall g :: g in gs ==> g.FLambda? && Size(g) <= n) && forall x :: env.NameOf(x) == out(x)
    modifies ex, env.Top()`uids
    ensures old(ex.ucnt) <= ex.ucnt && Expanded(gs, ls, old(ex.ucnt), ex.ucnt, out)
    ensures Gains(old(env.Top().uids), env.Top().uids, env.Top().prefix) && forall x :: env.NameOf(x) == out(x)
    decreases n, 2
  {
    hide RenamesLambda, WellScoped, Distinct.Binders, AllMadeIn, NoDup, Expanded, Gains;
    ls := [];
    NoneExpanded(ex.ucnt, out);
    NoChange(env.uids, env.Top().uids, env.Top().prefix);
    for j := 0 to |gs|
      invariant old(ex.ucnt) <= ex.ucnt && Expanded(gs[..j], ls, old(ex.ucnt), ex.ucnt, out)
      invariant Gains(old(env.Top().uids), env.Top().uids, env.Top().prefix) && forall x :: env.NameOf(x) == out(x)
    {
      ghost var c, t := ex.ucnt, env.Top().uids;
      var l := ExpandLambda(ex, gs[j], env, out);
      GainsTrans(old(env.Top().uids), t, env.Top().uids, env.Top().prefix);
      ExpandedNext(gs[..j], ls, old(ex.ucnt), c, gs[j], l, ex.ucnt, out);
      assert gs[..j + 1] == gs[..j] + [gs[j]];
      ls := ls + [l];
    }
    assert gs[..|gs|] == gs;
  }

  /** A new scope knows its formals. */
  lemma FormalsKnown(inner: Env, env: Env, formals: seq<string>, names: seq<Name>, lo: nat, hi: nat,
                     out: string -> Name)
    requires inner.Linked() && inner.up == env && Named(inner.uids, Symbols(formals), names, lo, hi)
      && forall x :: env.NameOf(x) == out(x)
    ensures Knows(inner, formals, out)
  {
    hide MadeIn;
    forall x | x in formals ensures Symbol(x) in inner.uids {
      var i :| 0 <= i < |formals| && formals[i] == x;
      assert Symbols(formals)[i] == Symbol(x);
    }
    forall x | x !in formals ensures inner.NameOf(x) == out(x) {
      assert Symbol(x) !in Symbols(formals);
      assert inner.NameOf(x) == env.NameOf(x);
    }
  }

  lemma FormalsStay(m: map<Ident, Name>, m1: map<Ident, Name>, formals: seq<string>, names: seq<Name>)
    requires Extends(m, m1) && BindsFormals(m, formals, names)
    ensures BindsFormals(m1, formals, names)
  {
  }

  /** What a lambda sees is what its scope knows in the end. */
  lemma WithinIs(env: Env, fin: seq<string>, out: string -> Name)
    requires env.Linked() && Knows(env, fin, out)
    ensures forall x :: env.NameOf(x) == Within(env.uids, fin, out)(x)
  {
  }

  lemma NoneExpanded(c: nat, out: string -> Name)
    ensures Expanded([], [], c, c, out)
  {
  }

  function Symbols(xs: seq<string>): (r: seq<Ident>)
    ensures |r| == |xs| && forall i :: 0 <= i < |xs| ==> r[i] == Symbol(xs[i])
  {
    seq(|xs|, i requires 0 <= i < |xs| => Symbol(xs[i]))
  }

  lemma NamedScope(m: map<Ident, Name>, ids: seq<Ident>, names: seq<Name>, prefix: string,
                   all: set<string>, lo: nat, hi: nat)
    requires Named(m, ids, names, lo, hi)
    ensures Scope(m, false, prefix, all, lo, hi)
    ensures |names| == |ids| && forall i :: 0 <= i < |ids| ==> ids[i] in m && m[ids[i]] == names[i]
  {
  }

  lemma {:induction false} MatchesNamed(k: Skeleton, f: Form, m: map<Ident, Name>, i: nat)
    requires Matches(k, f, m, i)
    ensures forall x :: x in Defined(f) ==> Symbol(x) in m
    decreases f, 1
  {
    match f
    case FQuote(_) | FVar(_) | FLambda(_, _, _) =>
    case FSet(_, e) => MatchesNamed(k.e, e, m, i);
    case FIf(c, t, e) =>
      MatchesNamed(k.c, c, m, i);
      MatchesNamed(k.t, t, m, i + |Lambdas(c)|);
      MatchesNamed(k.f, e, m, i + |Lambdas(c)| + |Lambdas(t)|);
    case FBegin(a, b) =>
      MatchesNamed(k.e1, a, m, i);
      MatchesNamed(k.e2, b, m, i + |Lambdas(a)|);
    case FDefine(_, e) => MatchesNamed(k.e, e, m, i);
    case FCall(fn, args) =>
      MatchesNamed(k.fn, fn, m, i);
      MatchesAllNamed(k.args, args, m, i + |Lambdas(fn)|);
  }

  lemma {:induction false} MatchesAllNamed(ks: seq<Skeleton>, fs: seq<Form>, m: map<Ident, Name>, i: nat)
    requires MatchesAll(ks, fs, m, i)
    ensures forall x :: x in DefinedAll(fs) ==> Symbol(x) in m
    decreases fs, 0
  {
    if fs != [] {
      MatchesNamed(ks[0], fs[0], m, i);
      MatchesAllNamed(ks[1..], fs[1..], m, i + |Lambdas(fs[0])|);
    }
  }

  /** What has been named in one environment, and in its lambdas later, is apart. */
  lemma NamesBefore(m: map<Ident, Name>, gs: seq<Form>, ls: seq<Core>, xs: set<Name>, lo: nat, mid: nat, hi: nat,
                    out: string -> Name)
    requires Expanded(gs, ls, mid, hi, out) && forall x :: x in xs ==> MadeIn(x, lo, mid)
    ensures Apart(ls, xs)
    ensures LambdasFrom(gs, ls, 0, out)
    ensures forall i, x :: 0 <= i < |ls| && x in Distinct.Binders(ls[i]) ==> MadeIn(x, mid, hi)
    ensures forall i, j, x :: Among(ls, i, j, x) ==> MadeIn(x, mid, hi)
    ensures (forall g :: g in gs ==> WellScoped(g)) ==> EachOnce(ls)
  {
    hide MadeIn, RenamesLambda, Distinct.Binders, WellScoped, NoDup;
    forall i, x | 0 <= i < |ls| && x in xs ensures x !in Distinct.Binders(ls[i]) {
      if x in Distinct.Binders(ls[i]) { ApartInTime(x, lo, mid, x, hi); }
    }
  }

  /** The names of distinct formals. */
  lemma FormalsPart(m: map<Ident, Name>, formals: seq<string>, names: seq<Name>, ls: seq<Core>, all: set<string>,
                    xs: set<Name>)
    requires |names| == |formals| && forall x :: x in formals ==> x in all
    requires forall i :: 0 <= i < |formals| ==> Symbol(formals[i]) in m && m[Symbol(formals[i])] == names[i]
    ensures PartOk(names, formals, m, ls, 0, 0, all, xs)
  {
    hide EachOnce, Apart;
    forall x | x in formals ensures Symbol(x) in m {}
    forall b | b in names ensures exists x :: x in formals && b == m[Symbol(x)] {
      var i :| 0 <= i < |names| && names[i] == b;
      assert formals[i] in formals;
    }
    if NoDup(formals) && Clean(m, all, ls, xs) {
      forall i, j | 0 <= i < j < |names| ensures names[i] != names[j] { assert formals[i] in all && formals[j] in all; }
    }
  }

  lemma LambdaDone(f: Form, c: Core, prefix: string, m: map<Ident, Name>, names: seq<Name>, k: Skeleton, ls: seq<Core>,
                   lo: nat, mid: nat, hi: nat, out: string -> Name)
    requires f.FLambda? && BindsFormals(m, FormalsOf(f.params, f.rest), names) && lo <= mid <= hi
    requires c == CLambda(names[..|f.params|], if f.rest.Some? then Some(names[|f.params|]) else None, Fill(k, ls))
    requires Scope(m, false, prefix, {}, lo, mid) && Matches(k, f.body, m, 0)
      && Refers(k, f.body, m, FormalsOf(f.params, f.rest), out)
    requires Expanded(Lambdas(f.body), ls, mid, hi, Within(m, FormalsOf(f.params, f.rest) + Defined(f.body), out))
    ensures RenamesLambda(f, c, out) && AllMadeIn(Distinct.Binders(c), lo, hi)
    ensures WellScoped(f) ==> NoDup(Distinct.Binders(c))
  {
    hide Matches, Refers, Lambdas, Expanded, Apart, EachOnce, Distinct.Binders, Fill, MadeIn, NoDup, Defined,
      WellScoped, RenamesLambda, Renames, PartOk, Within;
    var formals, own, body := FormalsOf(f.params, f.rest), Defined(f.body), Fill(k, ls);
    var bs, all, xs := Distinct.Binders(body), set x | x in formals + own, set i | i in m :: m[i];
    var n := |Lambdas(f.body)|;
    MatchesNamed(k, f.body, m, 0);
    NamesBefore(m, Lambdas(f.body), ls, xs, lo, mid, hi, Within(m, formals + own, out));
    FilledRenames(k, f.body, m, 0, ls, formals, formals + own, out);
    FilledOk(k, f.body, m, 0, ls, all, xs);
    FormalsPart(m, formals, names, ls, all, xs);
    PartsJoin(names, formals, bs, own, m, ls, 0, 0, n, all, xs);
    LambdaBinders(c, names);
    LambdaRenames(f, c, m, out);
    PartMade(names + bs, formals + own, m, ls, 0, n, all, xs, lo, mid, hi);
    if WellScoped(f) {
      LambdaScoped(f);
      LambdasScoped(f.body);
      PartOnce(names + bs, formals + own, m, ls, 0, n, all, xs);
    }
  }

  lemma LambdaBinders(c: Core, names: seq<Name>)
    requires c.CLambda? && |c.params| <= |names| && c.params == names[..|c.params|]
    requires if c.rest.Some? then |names| == |c.params| + 1 && c.rest.value == names[|c.params|]
      else |names| == |c.params|
    ensures Distinct.Binders(c) == names + Distinct.Binders(c.body) && c.params + Merging.RestNames(c.rest) == names
  {
    assert c.params + Merging.RestNames(c.rest) == names;
  }

  lemma LambdaRenames(f: Form, c: Core, m: map<Ident, Name>, out: string -> Name)
    requires f.FLambda? && c.CLambda? && |c.params| == |f.params| && c.rest.Some? == f.rest.Some?
    requires BindsFormals(m, FormalsOf(f.params, f.rest), c.params + Merging.RestNames(c.rest))
    requires Renames(f.body, c.body, m, FormalsOf(f.params, f.rest), FormalsOf(f.params, f.rest) + Defined(f.body), out)
    ensures RenamesLambda(f, c, out)
  {
    hide Renames, BindsFormals, Defined;
  }

  lemma LambdaScoped(f: Form)
    requires f.FLambda? && WellScoped(f)
    ensures NoDup(FormalsOf(f.params, f.rest) + Defined(f.body)) && WellScoped(f.body)
  {
  }

  lemma PartMade(bs: seq<Name>, own: seq<string>, m: map<Ident, Name>, ls: seq<Core>, i: nat, j: nat, all: set<string>,
                 xs: set<Name>, lo: nat, mid: nat, hi: nat)
    requires PartOk(bs, own, m, ls, i, j, all, xs) && lo <= mid <= hi
    requires forall x :: x in m ==> MadeIn(m[x], lo, mid)
    requires forall p, q, x :: Among(ls, p, q, x) ==> MadeIn(x, mid, hi)
    ensures AllMadeIn(bs, lo, hi)
  {
    hide MadeIn, Among, NoDup;
    forall b | b in bs ensures MadeIn(b, lo, hi) {
      if Among(ls, i, j, b) {
        Earlier(b, lo, mid, hi);
      } else {
        Later(b, lo, mid, hi);
      }
    }
  }

  lemma PartOnce(bs: seq<Name>, own: seq<string>, m: map<Ident, Name>, ls: seq<Core>, i: nat, j: nat, all: set<string>,
                 xs: set<Name>)
    requires PartOk(bs, own, m, ls, i, j, all, xs) && NoDup(own) && Clean(m, all, ls, xs)
    ensures NoDup(bs)
  {
  }

  // ---------- programs ----------

  /** A name that does not begin with a dot was never made up. */
  lemma OrdinaryName(x: Name, lo: nat, hi: nat)
    requires x == "" || x[0] != '.'
    ensures !MadeIn(x, lo, hi)
  {
    forall k, name ensures x != Uid(name, k) { assert Uid(name, k)[0] == '.'; }
  }

  /** What symbols are called in an outermost environment with this table. */
  ghost function TopNames(m: map<Ident, Name>, prefix: string): string -> Name {
    x => if Symbol(x) in m then m[Symbol(x)] else prefix + x
  }

  /** `pic_expand` in an outermost environment. Every reference is the name of its innermost binder. The binders of the
      program are pairwise distinct, when no scope of the program has an identifier twice, and no variable that it
      defines has a name that the expander made up. */
  method ExpandProgram(ex: Expander, f: Form, env: Env) returns (c: Core, ghost names: map<Ident, Name>)
    requires env.Linked() && env.up == null
    requires forall x :: x in Defined(f) && Symbol(x) in env.uids ==> env.uids[Symbol(x)] == env.prefix + x
    modifies ex, env`uids
    ensures old(ex.ucnt) <= ex.ucnt && Renames(f, c, names, [], Defined(f), TopNames(old(env.uids), env.prefix))
    ensures forall x :: x in Defined(f) ==> Symbol(x) in names && names[Symbol(x)] == env.prefix + x
    ensures forall b :: b in Distinct.Binders(c) ==>
      MadeIn(b, old(ex.ucnt), ex.ucnt) || exists x :: x in Defined(f) && b == env.prefix + x
    ensures NoDup(Defined(f)) && WellScoped(f) && (forall x :: x in Defined(f) ==>
                                                   !MadeIn(env.prefix + x, old(ex.ucnt), ex.ucnt)) ==>
      NoDup(Distinct.Binders(c))
  {
    hide Scope, Matches, Refers, Lambdas, Renames, WellScoped, Distinct.Binders, Expanded, MadeIn, NoDup, Defined,
      Gains, Extends, Within;
    ghost var lo, all, out := ex.ucnt, (set x | x in Defined(f)), TopNames(env.uids, env.prefix);
    OutermostScope(env.uids, env.prefix, all, lo);
    var k, d := Expand(ex, f, env, [], all, lo, [], out);
    names := env.uids;
    LambdasSmaller(f);
    assert d == Lambdas(f) && [] + Defined(f) == Defined(f);
    WithinIs(env, Defined(f), out);
    var ls := ExpandDeferred(ex, d, env, Within(names, Defined(f), out), Size(f));
    c := Fill(k, ls);
    ProgramDone(f, env.prefix, names, k, ls, lo, ex.ucnt, out);
  }

  lemma OutermostScope(m: map<Ident, Name>, prefix: string, all: set<string>, lo: nat)
    requires forall x :: x in all && Symbol(x) in m ==> m[Symbol(x)] == prefix + x
    ensures Scope(m, true, prefix, all, lo, lo)
  {
  }

  lemma ProgramDone(f: Form, prefix: string, m: map<Ident, Name>, k: Skeleton, ls: seq<Core>, lo: nat, hi: nat,
                    out: string -> Name)
    requires Scope(m, true, prefix, (set x | x in Defined(f)), lo, lo) && Matches(k, f, m, 0)
    requires Refers(k, f, m, [], out) && Expanded(Lambdas(f), ls, lo, hi, Within(m, Defined(f), out))
    ensures Renames(f, Fill(k, ls), m, [], Defined(f), out)
    ensures forall x :: x in Defined(f) ==> Symbol(x) in m && m[Symbol(x)] == prefix + x
    ensures forall b :: b in Distinct.Binders(Fill(k, ls)) ==>
      MadeIn(b, lo, hi) || exists x :: x in Defined(f) && b == prefix + x
    ensures NoDup(Defined(f)) && WellScoped(f) && (forall x :: x in Defined(f) ==> !MadeIn(prefix + x, lo, hi)) ==>
      NoDup(Distinct.Binders(Fill(k, ls)))
  {
    hide Matches, Lambdas, Expanded, EachOnce, Distinct.Binders, Fill, MadeIn, NoDup, Defined, WellScoped, Renames,
      Refers, Within;
    var own, n := Defined(f), |Lambdas(f)|;
    MatchesNamed(k, f, m, 0);
    NamesBefore(m, Lambdas(f), ls, {}, lo, lo, hi, Within(m, Defined(f), out));
    FilledRenames(k, f, m, 0, ls, [], Defined(f), out);
    var all, xs := set x | x in own, set x | x in own :: prefix + x;
    FilledOk(k, f, m, 0, ls, all, xs);
    FromPart(Distinct.Binders(Fill(k, ls)), own, m, ls, n, all, xs, prefix, lo, hi);
    if WellScoped(f) && NoDup(own) && forall x :: x in own ==> !MadeIn(prefix + x, lo, hi) {
      forall i, x | 0 <= i < |ls| && x in xs ensures x !in Distinct.Binders(ls[i]) {
        assert !MadeIn(x, lo, hi);
      }
      forall x, y | x in all && y in all && prefix + x == prefix + y ensures x == y {
        assert (prefix + x)[|prefix|..] == x && (prefix + y)[|prefix|..] == y;
      }
      LambdasScoped(f);
      PartOnce(Distinct.Binders(Fill(k, ls)), own, m, ls, 0, n, all, xs);
    }
  }

  lemma FromPart(bs: seq<Name>, own: seq<string>, m: map<Ident, Name>, ls: seq<Core>, n: nat, all: set<string>,
                 xs: set<Name>, prefix: string, lo: nat, hi: nat)
    requires PartOk(bs, own, m, ls, 0, n, all, xs)
    requires forall x :: x in own && Symbol(x) in m ==> m[Symbol(x)] == prefix + x
    requires forall p, q, x :: Among(ls, p, q, x) ==> MadeIn(x, lo, hi)
    ensures forall b :: b in bs ==> MadeIn(b, lo, hi) || exists x :: x in own && b == prefix + x
  {
    hide MadeIn, Among, NoDup, Clean;
  }
}
