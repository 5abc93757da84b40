/** Expanded core forms, the beta optimization and the normalization. */
module CoreForms {
  import opened Util
  import opened Syntax

  datatype Core =
    | CQuote(d: Datum)
    | CVar(x: Name)
    | CSet(x: Name, e: Core)
    | CIf(c: Core, t: Core, f: Core)
    | CBegin(e1: Core, e2: Core)
    | CDefine(x: Name, e: Core)
    | CLambda(params: seq<Name>, rest: Option<Name>, body: Core)
    | CCall(fn: Core, args: seq<Core>)

  function Size(e: Core): (n: nat)
    ensures n > 0
  {
    match e
    case CQuote(_) | CVar(_) => 1
    case CSet(_, e1) => 1 + Size(e1)
    case CIf(c, t, f) => 1 + Size(c) + Size(t) + Size(f)
    case CBegin(a, b) => 1 + Size(a) + Size(b)
    case CDefine(_, e1) => 1 + Size(e1)
    case CLambda(_, _, b) => 1 + Size(b)
    case CCall(fn, args) => 1 + Size(fn) + SizeAll(args)
  }

  function SizeAll(es: seq<Core>): nat {
    if es == [] then 0 else Size(es[0]) + SizeAll(es[1..])
  }

  // ---------- optimize_beta ----------

  /** A functor that is a lambda without rest list, called with as many arguments as it has formals. */
  predicate Fires(fn: Core, args: seq<Core>) {
    fn.CLambda? && fn.rest == None && |fn.params| == |args|
  }

  /** The definitions in front of the body, in the order of the arguments. */
  function Defines(params: seq<Name>, args: seq<Core>, body: Core): Core
    requires |params| == |args|
    decreases |args|
  {
    if args == [] then body
    else CBegin(CDefine(params[0], args[0]), Defines(params[1..], args[1..], body))
  }

  /** `optimize_beta`. */
  function Optimize(e: Core): Core
    decreases e, 1
  {
    match e
    case CQuote(_) | CVar(_) => e
    case CSet(x, e1) => CSet(x, Optimize(e1))
    case CIf(c, t, f) => CIf(Optimize(c), Optimize(t), Optimize(f))
    case CBegin(a, b) => CBegin(Optimize(a), Optimize(b))
    case CDefine(x, e1) => CDefine(x, Optimize(e1))
    case CLambda(ps, r, b) => CLambda(ps, r, Optimize(b))
    case CCall(fn, args) =>
      var fn1, args1 := Optimize(fn), OptimizeAll(args);
      if Fires(fn1, args1) then Defines(fn1.params, args1, fn1.body) else CCall(fn1, args1)
  }

  function OptimizeAll(es: seq<Core>): (r: seq<Core>)
    ensures |r| == |es|
    decreases es, 0
  {
    if es == [] then [] else [Optimize(es[0])] + OptimizeAll(es[1..])
  }

  /** No lambda is called on the spot with as many arguments as it has formals. */
  predicate NoRedex(e: Core)
    decreases e, 1
  {
    match e
    case CQuote(_) | CVar(_) => true
    case CSet(_, e1) => NoRedex(e1)
    case CIf(c, t, f) => NoRedex(c) && NoRedex(t) && NoRedex(f)
    case CBegin(a, b) => NoRedex(a) && NoRedex(b)
    case CDefine(_, e1) => NoRedex(e1)
    case CLambda(_, _, b) => NoRedex(b)
    case CCall(fn, args) =>
      !(fn.CLambda? && fn.rest == None && |fn.params| == |args|) && NoRedex(fn) && AllNoRedex(args)
  }

  predicate AllNoRedex(es: seq<Core>)
    decreases es, 0
  {
    es != [] ==> NoRedex(es[0]) && AllNoRedex(es[1..])
  }

  lemma {:induction false} DefinesNoRedex(params: seq<Name>, args: seq<Core>, body: Core)
    requires |params| == |args| && AllNoRedex(args) && NoRedex(body)
    ensures NoRedex(Defines(params, args, body))
    decreases |args|
  {
    if args != [] { DefinesNoRedex(params[1..], args[1..], body); }
  }

  /** After `optimize_beta` none is left, at any depth. */
  lemma {:induction false} OptimizeDone(e: Core)
    ensures NoRedex(Optimize(e))
    decreases e, 1
  {
    match e
    case CQuote(_) | CVar(_) =>
    case CSet(_, e1) => OptimizeDone(e1);
    case CIf(c, t, f) =>
      OptimizeDone(c);
      OptimizeDone(t);
      OptimizeDone(f);
    case CBegin(a, b) =>
      OptimizeDone(a);
      OptimizeDone(b);
    case CDefine(_, e1) => OptimizeDone(e1);
    case CLambda(_, _, b) => OptimizeDone(b);
    case CCall(fn, args) =>
      OptimizeDone(fn);
      OptimizeAllDone(args);
      var fn1, args1 := Optimize(fn), OptimizeAll(args);
      if Fires(fn1, args1) { DefinesNoRedex(fn1.params, args1, fn1.body); }
  }

  lemma {:induction false} OptimizeAllDone(es: seq<Core>)
    ensures AllNoRedex(OptimizeAll(es))
    decreases es, 0
  {
    if es != [] {
      OptimizeDone(es[0]);
      OptimizeAllDone(es[1..]);
      assert OptimizeAll(es)[1..] == OptimizeAll(es[1..]);
    }
  }

  // ---------- normalize ----------

  /** The variables that `normalize` adds to the locals (or globals) of the body `e`: definitions
      outside of inner lambdas. */
  function Hoisted(e: Core, locals: seq<Name>): seq<Name>
    decreases e, 1
  {
    match e
    case CQuote(_) | CVar(_) | CLambda(_, _, _) => locals
    case CSet(_, e1) => Hoisted(e1, locals)
    case CIf(c, t, f) => Hoisted(f, Hoisted(t, Hoisted(c, locals)))
    case CBegin(a, b) => Hoisted(b, Hoisted(a, locals))
    case CDefine(x, e1) => Hoisted(e1, if x in locals then locals else [x] + locals)
    case CCall(fn, args) => HoistedAll(args, Hoisted(fn, locals))
  }

  function HoistedAll(es: seq<Core>, locals: seq<Name>): seq<Name>
    decreases es, 0
  {
    if es == [] then locals else HoistedAll(es[1..], Hoisted(es[0], locals))
  }

  /** `normalize`: definitions become assignments, every lambda lists the definitions of its body. */
  function Normalize(e: Core): Expr
    decreases e, 1
  {
    match e
    case CQuote(d) => Quote(d)
    case CVar(x) => Var(x)
    case CSet(x, e1) => Set(x, Normalize(e1))
    case CIf(c, t, f) => If(Normalize(c), Normalize(t), Normalize(f))
    case CBegin(a, b) => Begin(Normalize(a), Normalize(b))
    case CDefine(x, e1) => Set(x, Normalize(e1))
    case CLambda(ps, r, b) => Lambda(ps, r, Hoisted(b, []), Normalize(b))
    case CCall(fn, args) => Call(Normalize(fn), NormalizeAll(args))
  }

  function NormalizeAll(es: seq<Core>): (r: seq<Expr>)
    ensures |r| == |es|
    decreases es, 0
  {
    if es == [] then [] else [Normalize(es[0])] + NormalizeAll(es[1..])
  }

  /** The defined variables of `e` in the order of the text, inner lambdas left out. */
  function Defs(e: Core): seq<Name>
    decreases e, 1
  {
    match e
    case CQuote(_) | CVar(_) | CLambda(_, _, _) => []
    case CSet(_, e1) => Defs(e1)
    case CIf(c, t, f) => Defs(c) + Defs(t) + Defs(f)
    case CBegin(a, b) => Defs(a) + Defs(b)
    case CDefine(x, e1) => [x] + Defs(e1)
    case CCall(fn, args) => Defs(fn) + DefsAll(args)
  }

  function DefsAll(es: seq<Core>): seq<Name>
    decreases es, 0
  {
    if es == [] then [] else Defs(es[0]) + DefsAll(es[1..])
  }

  lemma {:induction false} HoistedAre(e: Core, locals: seq<Name>, x: Name)
    ensures x in Hoisted(e, locals) <==> x in locals || x in Defs(e)
    decreases e, 1
  {
    match e
    case CQuote(_) | CVar(_) | CLambda(_, _, _) =>
    case CSet(_, e1) => HoistedAre(e1, locals, x);
    case CIf(c, t, f) =>
      HoistedAre(c, locals, x);
      HoistedAre(t, Hoisted(c, locals), x);
      HoistedAre(f, Hoisted(t, Hoisted(c, locals)), x);
    case CBegin(a, b) =>
      HoistedAre(a, locals, x);
      HoistedAre(b, Hoisted(a, locals), x);
    case CDefine(y, e1) => HoistedAre(e1, if y in locals then locals else [y] + locals, x);
    case CCall(fn, args) =>
      HoistedAre(fn, locals, x);
      HoistedAllAre(args, Hoisted(fn, locals), x);
  }

  lemma {:induction false} HoistedAllAre(es: seq<Core>, locals: seq<Name>, x: Name)
    ensures x in HoistedAll(es, locals) <==> x in locals || x in DefsAll(es)
    decreases es, 0
  {
    if es != [] {
      HoistedAre(es[0], locals, x);
      HoistedAllAre(es[1..], Hoisted(es[0], locals), x);
    }
  }

  // ---------- nested functors ----------

  /** The lambda whose closure a functor yields, when the optimized functor is a lambda: either the
      functor itself, or the body of redexes without arguments. */
  function Functor(fn: Core): (lam: Core)
    requires Optimize(fn).CLambda?
    ensures lam.CLambda? && Optimize(lam) == Optimize(fn) && Size(lam) <= Size(fn)
    decreases Size(fn)
  {
    if fn.CLambda? then fn
    else
      assert fn.CCall?;
      var fn1, args1 := Optimize(fn.fn), OptimizeAll(fn.args);
      assert Fires(fn1, args1) && fn.args == [] && Optimize(fn) == fn1.body;
      var lam1 := Functor(fn.fn);
      assert Optimize(lam1.body) == fn1.body;
      Functor(lam1.body)
  }
}
