/** Programs that define a global variable again: until then the variable has no value. */
module Redefinition {
  import opened Util
  import opened Syntax
  import opened CoreForms
  import D = Direct

  /** The memory without the values of some global variables. */
  function Forget(s: D.Store, xs: seq<Name>): D.Store {
    s.(globals := map x | x in s.globals && x !in xs :: s.globals[x])
  }

  /** `s1` is `s` but for the values of some global variables among `xs`. */
  ghost predicate Forgotten(s1: D.Store, s: D.Store, xs: set<Name>) {
    && s1.frames == s.frames && s1.globals.Keys <= s.globals.Keys
    && (forall x :: x in s1.globals ==> s1.globals[x] == s.globals[x])
    && (forall x :: x in s.globals && x !in xs ==> x in s1.globals)
  }

  // ---------- the order of definitions and uses ----------

  /** Of the variables `xs` without a value, those that may have none yet after `e` has run at the top level. */
  function Left(e: Core, xs: set<Name>): (r: set<Name>)
    ensures r <= xs
    decreases e, 1
  {
    match e
    case CQuote(_) | CVar(_) | CLambda(_, _, _) => xs
    case CSet(_, e1) => Left(e1, xs)
    case CIf(c, t, f) => Left(t, Left(c, xs)) + Left(f, Left(c, xs))
    case CBegin(a, b) => Left(b, Left(a, xs))
    case CDefine(x, e1) => Left(e1, xs) - {x}
    case CCall(fn, args) => LeftAll(args, Left(fn, xs))
  }

  function LeftAll(es: seq<Core>, xs: set<Name>): (r: set<Name>)
    ensures r <= xs
    decreases es, 0
  {
    if es == [] then xs else LeftAll(es[1..], Left(es[0], xs))
  }

  /** No variable of `xs` is used before it is defined: none is mentioned, and nothing is called. */
  predicate DefinedFirst(e: Core, xs: set<Name>)
    decreases e, 1
  {
    match e
    case CQuote(_) | CLambda(_, _, _) => true
    case CVar(x) => x !in xs
    case CSet(x, e1) => DefinedFirst(e1, xs) && x !in Left(e1, xs)
    case CIf(c, t, f) => DefinedFirst(c, xs) && DefinedFirst(t, Left(c, xs)) && DefinedFirst(f, Left(c, xs))
    case CBegin(a, b) => DefinedFirst(a, xs) && DefinedFirst(b, Left(a, xs))
    case CDefine(_, e1) => DefinedFirst(e1, xs)
    case CCall(fn, args) =>
      DefinedFirst(fn, xs) && AllDefinedFirst(args, Left(fn, xs))
      && LeftAll(args, Left(fn, xs)) == {}
  }

  predicate AllDefinedFirst(es: seq<Core>, xs: set<Name>)
    decreases es, 0
  {
    es != [] ==> DefinedFirst(es[0], xs) && AllDefinedFirst(es[1..], Left(es[0], xs))
  }

  // ---------- what was forgotten does not matter ----------

  /** The same outcome, and memories that differ in `xs` at most. */
  ghost predicate Same(o1: D.Outcome, o: D.Outcome, xs: set<Name>) {
    if o.Ok? then o1.Ok? && o1.v == o.v && Forgotten(o1.s, o.s, xs) else o1 == o
  }

  ghost predicate SameArgs(o1: D.ArgsOutcome, o: D.ArgsOutcome, xs: set<Name>) {
    if o.ArgsOk? then o1.ArgsOk? && o1.vs == o.vs && Forgotten(o1.s, o.s, xs) else o1 == o
  }

  lemma ForgottenMore(s1: D.Store, s: D.Store, xs: set<Name>, ys: set<Name>)
    requires Forgotten(s1, s, xs) && xs <= ys
    ensures Forgotten(s1, s, ys)
  {
  }

  lemma NothingForgotten(s1: D.Store, s: D.Store)
    requires Forgotten(s1, s, {})
    ensures s1 == s
  {
    assert s1.globals == s.globals;
  }

  lemma LookupSame(s1: D.Store, s: D.Store, xs: set<Name>, env: nat, x: Name)
    requires Forgotten(s1, s, xs) && x !in xs
    ensures D.Lookup(s1, env, x) == D.Lookup(s, env, x)
  {
    hide D.Find;
  }

  lemma UpdateSame(s1: D.Store, s: D.Store, xs: set<Name>, env: nat, x: Name, v: D.DVal)
    requires Forgotten(s1, s, xs) && x !in xs
    ensures D.Update(s1, env, x, v).Some? == D.Update(s, env, x, v).Some?
    ensures D.Update(s, env, x, v).Some? ==> Forgotten(D.Update(s1, env, x, v).value, D.Update(s, env, x, v).value, xs)
  {
    hide D.Find;
  }

  lemma BindSame(s1: D.Store, s: D.Store, xs: set<Name>, env: nat, x: Name, v: D.DVal)
    requires Forgotten(s1, s, xs) && env < |s.frames| && s.frames[env].up == None
    ensures Forgotten(D.Bind(s1, env, x, v), D.Bind(s, env, x, v), xs - {x})
  {
  }

  lemma {:induction false} TopStays(e: Core, env: nat, s: D.Store, n: nat, g: nat)
    requires g < |s.frames| && D.Eval(e, env, s, n).Ok?
    ensures g < |D.Eval(e, env, s, n).s.frames| && D.Eval(e, env, s, n).s.frames[g].up == s.frames[g].up
    decreases n, 1, e, 1
  {
    hide D.Lookup, D.ApplyProc;
    match e
    case CQuote(_) | CVar(_) | CLambda(_, _, _) =>
    case CSet(_, e1) => TopStays(e1, env, s, n, g);
    case CDefine(_, e1) => TopStays(e1, env, s, n, g);
    case CIf(c, t, f) =>
      TopStays(c, env, s, n, g);
      var o := D.Eval(c, env, s, n);
      TopStays(if o.v == Bool(false) then f else t, env, o.s, n, g);
    case CBegin(a, b) =>
      TopStays(a, env, s, n, g);
      TopStays(b, env, D.Eval(a, env, s, n).s, n, g);
    case CCall(fn, args) =>
      TopStays(fn, env, s, n, g);
      var o := D.Eval(fn, env, s, n);
      TopStaysArgs(args, env, o.s, n, g);
      var os := D.EvalArgs(args, env, o.s, n);
      TopStaysApply(o.v, os.vs, os.s, n, g);
  }

  lemma {:induction false} TopStaysArgs(es: seq<Core>, env: nat, s: D.Store, n: nat, g: nat)
    requires g < |s.frames| && D.EvalArgs(es, env, s, n).ArgsOk?
    ensures g < |D.EvalArgs(es, env, s, n).s.frames| && D.EvalArgs(es, env, s, n).s.frames[g].up == s.frames[g].up
    decreases n, 1, es, 0
  {
    if es != [] {
      TopStays(es[0], env, s, n, g);
      TopStaysArgs(es[1..], env, D.Eval(es[0], env, s, n).s, n, g);
    }
  }

  lemma {:induction false} TopStaysApply(v: D.DVal, vs: seq<D.DVal>, s: D.Store, n: nat, g: nat)
    requires g < |s.frames| && D.ApplyProc(v, vs, s, n).Ok?
    ensures g < |D.ApplyProc(v, vs, s, n).s.frames| && D.ApplyProc(v, vs, s, n).s.frames[g].up == s.frames[g].up
    decreases n, 0
  {
    hide D.NewFrame;
    if v.Proc? {
      TopStays(v.closure.lam.body, |s.frames|, s.(frames := s.frames + [D.NewFrame(v.closure.lam, v.closure.env, vs)]),
               n - 1, g);
    }
  }

  /** Code that defines the forgotten variables before it uses them does not notice. */
  lemma {:induction false} Unnoticed(e: Core, env: nat, s1: D.Store, s: D.Store, xs: set<Name>, n: nat)
    requires Forgotten(s1, s, xs) && DefinedFirst(e, xs) && env < |s.frames| && s.frames[env].up == None
    ensures Same(D.Eval(e, env, s1, n), D.Eval(e, env, s, n), Left(e, xs))
    decreases e, 1
  {
    hide D.Lookup, D.Update, D.Bind, D.ApplyProc, Forgotten;
    match e
    case CQuote(_) | CLambda(_, _, _) =>
    case CVar(x) => LookupSame(s1, s, xs, env, x);
    case CSet(x, e1) =>
      Unnoticed(e1, env, s1, s, xs, n);
      var o1, o := D.Eval(e1, env, s1, n), D.Eval(e1, env, s, n);
      if o.Ok? { UpdateSame(o1.s, o.s, Left(e1, xs), env, x, o.v); }
    case CDefine(x, e1) =>
      Unnoticed(e1, env, s1, s, xs, n);
      var o1, o := D.Eval(e1, env, s1, n), D.Eval(e1, env, s, n);
      if o.Ok? {
        TopStays(e1, env, s, n, env);
        BindSame(o1.s, o.s, Left(e1, xs), env, x, o.v);
      }
    case CIf(c, t, f) =>
      Unnoticed(c, env, s1, s, xs, n);
      var o1, o := D.Eval(c, env, s1, n), D.Eval(c, env, s, n);
      if o.Ok? {
        TopStays(c, env, s, n, env);
        var b := if o.v == Bool(false) then f else t;
        Unnoticed(b, env, o1.s, o.s, Left(c, xs), n);
        var r := D.Eval(b, env, o.s, n);
        if r.Ok? { ForgottenMore(D.Eval(b, env, o1.s, n).s, r.s, Left(b, Left(c, xs)), Left(e, xs)); }
      }
    case CBegin(a, b) =>
      Unnoticed(a, env, s1, s, xs, n);
      var o1, o := D.Eval(a, env, s1, n), D.Eval(a, env, s, n);
      if o.Ok? {
        TopStays(a, env, s, n, env);
        Unnoticed(b, env, o1.s, o.s, Left(a, xs), n);
      }
    case CCall(fn, args) =>
      Unnoticed(fn, env, s1, s, xs, n);
      var o1, o := D.Eval(fn, env, s1, n), D.Eval(fn, env, s, n);
      if o.Ok? {
        TopStays(fn, env, s, n, env);
        UnnoticedArgs(args, env, o1.s, o.s, Left(fn, xs), n);
        var os1, os := D.EvalArgs(args, env, o1.s, n), D.EvalArgs(args, env, o.s, n);
        if os.ArgsOk? {
          NothingForgotten(os1.s, os.s);
          AlwaysForgotten(D.ApplyProc(o.v, os.vs, os.s, n));
        }
      }
  }

  lemma AlwaysForgotten(o: D.Outcome)
    ensures o.Ok? ==> Forgotten(o.s, o.s, {})
  {
  }

  lemma {:induction false} UnnoticedArgs(es: seq<Core>, env: nat, s1: D.Store, s: D.Store, xs: set<Name>, n: nat)
    requires Forgotten(s1, s, xs) && AllDefinedFirst(es, xs) && env < |s.frames| && s.frames[env].up == None
    ensures SameArgs(D.EvalArgs(es, env, s1, n), D.EvalArgs(es, env, s, n), LeftAll(es, xs))
    decreases es, 0
  {
    hide Forgotten;
    if es != [] {
      Unnoticed(es[0], env, s1, s, xs, n);
      var o1, o := D.Eval(es[0], env, s1, n), D.Eval(es[0], env, s, n);
      if o.Ok? {
        TopStays(es[0], env, s, n, env);
        UnnoticedArgs(es[1..], env, o1.s, o.s, Left(es[0], xs), n);
      }
    }
  }

  /** A program that defines all of `xs`, each before it is used, ends in the same memory whether the
      variables had values before or not. */
  lemma ForgetUnnoticed(e: Core, s: D.Store, xs: seq<Name>, n: nat)
    requires DefinedFirst(e, set x | x in xs) && Left(e, set x | x in xs) == {}
    ensures D.EvalProgram(e, Forget(s, xs), n) == D.EvalProgram(e, s, n)
  {
    hide D.Eval, DefinedFirst, Left;
    var ys := set x | x in xs;
    var s0, s1 := s.(frames := s.frames + [D.TOP_FRAME]), Forget(s, xs).(frames := s.frames + [D.TOP_FRAME]);
    assert Forgotten(s1, s0, ys);
    Unnoticed(e, |s.frames|, s1, s0, ys, n);
    var o1, o := D.Eval(e, |s.frames|, s1, n), D.Eval(e, |s.frames|, s0, n);
    if o.Ok? { NothingForgotten(o1.s, o.s); }
  }
}
