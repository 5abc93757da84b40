/** What more fuel, and running code at all, cannot change. */
module Fuel {
  import opened Util
  import opened Syntax
  import opened CoreForms
  import Builtins
  import S = Source
  import D = Direct

  // ---------- an outcome does not depend on the fuel that is left ----------

  lemma {:induction false} SourceMore(e: Expr, f: nat, s: S.Store, n: nat, m: nat)
    requires n <= m && !S.Eval(e, f, s, n).Timeout?
    ensures S.Eval(e, f, s, m) == S.Eval(e, f, s, n)
    decreases n, 1, e, 1
  {
    hide S.Lookup, S.Update, S.ApplyProc;
    match e
    case Quote(_) | Var(_) | Lambda(_, _, _, _) =>
    case Set(x, e1) => SourceMore(e1, f, s, n, m);
    case If(c, t, el) =>
      SourceMore(c, f, s, n, m);
      var o := S.Eval(c, f, s, n);
      if o.Ok? { SourceMore(if o.v == Bool(false) then el else t, f, o.s, n, m); }
    case Begin(a, b) =>
      SourceMore(a, f, s, n, m);
      var o := S.Eval(a, f, s, n);
      if o.Ok? { SourceMore(b, f, o.s, n, m); }
    case Call(fn, args) =>
      SourceMore(fn, f, s, n, m);
      var o := S.Eval(fn, f, s, n);
      if o.Ok? {
        SourceArgsMore(args, f, o.s, n, m);
        var os := S.EvalArgs(args, f, o.s, n);
        if os.ArgsOk? { SourceApplyMore(o.v, os.vs, os.s, n, m); }
      }
  }

  lemma {:induction false} SourceArgsMore(es: seq<Expr>, f: nat, s: S.Store, n: nat, m: nat)
    requires n <= m && !S.EvalArgs(es, f, s, n).ArgsTimeout?
    ensures S.EvalArgs(es, f, s, m) == S.EvalArgs(es, f, s, n)
    decreases n, 1, es, 0
  {
    if es != [] {
      SourceMore(es[0], f, s, n, m);
      var o := S.Eval(es[0], f, s, n);
      if o.Ok? { SourceArgsMore(es[1..], f, o.s, n, m); }
    }
  }

  lemma {:induction false} SourceApplyMore(v: S.SVal, vs: seq<S.SVal>, s: S.Store, n: nat, m: nat)
    requires n <= m && !S.ApplyProc(v, vs, s, n).Timeout?
    ensures S.ApplyProc(v, vs, s, m) == S.ApplyProc(v, vs, s, n)
    decreases n, 0
  {
    hide Builtins.Apply, S.NewFrame;
    if v.Proc? && v.closure.lam.Lambda? && S.ArityOk(|v.closure.lam.params|, v.closure.lam.rest.Some?, |vs|) {
      SourceMore(v.closure.lam.body, |s.frames|,
                 s.(frames := s.frames + [S.NewFrame(v.closure.lam, v.closure.env, vs)]), n - 1, m - 1);
    }
  }

  lemma {:induction false} DirectMore(e: Core, env: nat, s: D.Store, n: nat, m: nat)
    requires n <= m && !D.Eval(e, env, s, n).Timeout?
    ensures D.Eval(e, env, s, m) == D.Eval(e, env, s, n)
    decreases n, 1, e, 1
  {
    hide D.Lookup, D.Update, D.ApplyProc;
    match e
    case CQuote(_) | CVar(_) | CLambda(_, _, _) =>
    case CSet(_, e1) => DirectMore(e1, env, s, n, m);
    case CDefine(_, e1) => DirectMore(e1, env, s, n, m);
    case CIf(c, t, f) =>
      DirectMore(c, env, s, n, m);
      var o := D.Eval(c, env, s, n);
      if o.Ok? { DirectMore(if o.v == Bool(false) then f else t, env, o.s, n, m); }
    case CBegin(a, b) =>
      DirectMore(a, env, s, n, m);
      var o := D.Eval(a, env, s, n);
      if o.Ok? { DirectMore(b, env, o.s, n, m); }
    case CCall(fn, args) =>
      DirectMore(fn, env, s, n, m);
      var o := D.Eval(fn, env, s, n);
      if o.Ok? {
        DirectArgsMore(args, env, o.s, n, m);
        var os := D.EvalArgs(args, env, o.s, n);
        if os.ArgsOk? { DirectApplyMore(o.v, os.vs, os.s, n, m); }
      }
  }

  lemma {:induction false} DirectArgsMore(es: seq<Core>, env: nat, s: D.Store, n: nat, m: nat)
    requires n <= m && !D.EvalArgs(es, env, s, n).ArgsTimeout?
    ensures D.EvalArgs(es, env, s, m) == D.EvalArgs(es, env, s, n)
    decreases n, 1, es, 0
  {
    if es != [] {
      DirectMore(es[0], env, s, n, m);
      var o := D.Eval(es[0], env, s, n);
      if o.Ok? { DirectArgsMore(es[1..], env, o.s, n, m); }
    }
  }

  lemma {:induction false} DirectApplyMore(v: D.DVal, vs: seq<D.DVal>, s: D.Store, n: nat, m: nat)
    requires n <= m && !D.ApplyProc(v, vs, s, n).Timeout?
    ensures D.ApplyProc(v, vs, s, m) == D.ApplyProc(v, vs, s, n)
    decreases n, 0
  {
    hide Builtins.Apply, D.NewFrame;
    if v.Proc? && v.closure.lam.CLambda? && S.ArityOk(|v.closure.lam.params|, v.closure.lam.rest.Some?, |vs|) {
      DirectMore(v.closure.lam.body, |s.frames|,
                 s.(frames := s.frames + [D.NewFrame(v.closure.lam, v.closure.env, vs)]), n - 1, m - 1);
    }
  }

  // ---------- the global variables there are ----------

  /** Normalized code makes no global variable. */
  lemma {:induction false} SameGlobals(e: Expr, f: nat, s: S.Store, n: nat, x: Name)
    requires S.Eval(e, f, s, n).Ok?
    ensures x in S.Eval(e, f, s, n).s.globals <==> x in s.globals
    decreases n, 1, e, 1
  {
    hide S.Lookup, S.ApplyProc;
    match e
    case Quote(_) | Var(_) | Lambda(_, _, _, _) =>
    case Set(y, e1) => SameGlobals(e1, f, s, n, x);
    case If(c, t, el) =>
      SameGlobals(c, f, s, n, x);
      var o := S.Eval(c, f, s, n);
      SameGlobals(if o.v == Bool(false) then el else t, f, o.s, n, x);
    case Begin(a, b) =>
      SameGlobals(a, f, s, n, x);
      SameGlobals(b, f, S.Eval(a, f, s, n).s, n, x);
    case Call(fn, args) =>
      SameGlobals(fn, f, s, n, x);
      var o := S.Eval(fn, f, s, n);
      SameGlobalsArgs(args, f, o.s, n, x);
      var os := S.EvalArgs(args, f, o.s, n);
      SameGlobalsApply(o.v, os.vs, os.s, n, x);
  }

  lemma {:induction false} SameGlobalsArgs(es: seq<Expr>, f: nat, s: S.Store, n: nat, x: Name)
    requires S.EvalArgs(es, f, s, n).ArgsOk?
    ensures x in S.EvalArgs(es, f, s, n).s.globals <==> x in s.globals
    decreases n, 1, es, 0
  {
    if es != [] {
      SameGlobals(es[0], f, s, n, x);
      SameGlobalsArgs(es[1..], f, S.Eval(es[0], f, s, n).s, n, x);
    }
  }

  lemma {:induction false} SameGlobalsApply(v: S.SVal, vs: seq<S.SVal>, s: S.Store, n: nat, x: Name)
    requires S.ApplyProc(v, vs, s, n).Ok?
    ensures x in S.ApplyProc(v, vs, s, n).s.globals <==> x in s.globals
    decreases n, 0
  {
    hide Builtins.Apply, S.NewFrame;
    if v.Proc? {
      SameGlobals(v.closure.lam.body, |s.frames|,
                  s.(frames := s.frames + [S.NewFrame(v.closure.lam, v.closure.env, vs)]), n - 1, x);
    }
  }

  /** A global variable with a value stays one, and is never found unbound. */
  lemma {:induction false} GlobalsStay(e: Core, env: nat, s: D.Store, n: nat, x: Name)
    requires x in s.globals
    ensures D.Eval(e, env, s, n).Ok? ==> x in D.Eval(e, env, s, n).s.globals
    ensures D.Eval(e, env, s, n).Unbound? ==> D.Eval(e, env, s, n).x != x
    decreases n, 1, e, 1
  {
    hide D.Find, D.ApplyProc;
    match e
    case CQuote(_) | CVar(_) | CLambda(_, _, _) =>
    case CSet(_, e1) => GlobalsStay(e1, env, s, n, x);
    case CDefine(_, e1) => GlobalsStay(e1, env, s, n, x);
    case CIf(c, t, f) =>
      GlobalsStay(c, env, s, n, x);
      var o := D.Eval(c, env, s, n);
      if o.Ok? { GlobalsStay(if o.v == Bool(false) then f else t, env, o.s, n, x); }
    case CBegin(a, b) =>
      GlobalsStay(a, env, s, n, x);
      var o := D.Eval(a, env, s, n);
      if o.Ok? { GlobalsStay(b, env, o.s, n, x); }
    case CCall(fn, args) =>
      GlobalsStay(fn, env, s, n, x);
      var o := D.Eval(fn, env, s, n);
      if o.Ok? {
        GlobalsStayArgs(args, env, o.s, n, x);
        var os := D.EvalArgs(args, env, o.s, n);
        if os.ArgsOk? { GlobalsStayApply(o.v, os.vs, os.s, n, x); }
      }
  }

  lemma {:induction false} GlobalsStayArgs(es: seq<Core>, env: nat, s: D.Store, n: nat, x: Name)
    requires x in s.globals
    ensures D.EvalArgs(es, env, s, n).ArgsOk? ==> x in D.EvalArgs(es, env, s, n).s.globals
    ensures D.EvalArgs(es, env, s, n).ArgsUnbound? ==> D.EvalArgs(es, env, s, n).x != x
    decreases n, 1, es, 0
  {
    if es != [] {
      GlobalsStay(es[0], env, s, n, x);
      var o := D.Eval(es[0], env, s, n);
      if o.Ok? { GlobalsStayArgs(es[1..], env, o.s, n, x); }
    }
  }

  lemma {:induction false} GlobalsStayApply(v: D.DVal, vs: seq<D.DVal>, s: D.Store, n: nat, x: Name)
    requires x in s.globals
    ensures D.ApplyProc(v, vs, s, n).Ok? ==> x in D.ApplyProc(v, vs, s, n).s.globals
    ensures D.ApplyProc(v, vs, s, n).Unbound? ==> D.ApplyProc(v, vs, s, n).x != x
    decreases n, 0
  {
    hide Builtins.Apply, D.NewFrame;
    if v.Proc? && v.closure.lam.CLambda? && S.ArityOk(|v.closure.lam.params|, v.closure.lam.rest.Some?, |vs|) && n > 0 {
      GlobalsStay(v.closure.lam.body, |s.frames|,
                  s.(frames := s.frames + [D.NewFrame(v.closure.lam, v.closure.env, vs)]), n - 1, x);
    }
  }
}
