/** The analyzer captures what inner lambdas use, and nothing else. */
module Captures {
  import opened Util
  import opened Syntax
  import A = Analyzer

  function Bound(ps: seq<Name>, r: Option<Name>, ls: seq<Name>): set<Name> {
    set x | x in FrameNames(ps, r, ls)
  }

  /** The variables of a form that are bound outside of it. */
  function Mentions(e: Expr): set<Name>
    decreases e, 1
  {
    match e
    case Quote(_) => {}
    case Var(x) => {x}
    case Set(x, e1) => {x} + Mentions(e1)
    case If(c, t, f) => Mentions(c) + Mentions(t) + Mentions(f)
    case Begin(e1, e2) => Mentions(e1) + Mentions(e2)
    case Lambda(ps, r, ls, body) => Mentions(body) - Bound(ps, r, ls)
    case Call(fn, args) => Mentions(fn) + MentionsAll(args)
  }

  function MentionsAll(es: seq<Expr>): set<Name>
    decreases es, 0
  {
    if es == [] then {} else Mentions(es[0]) + MentionsAll(es[1..])
  }

  /** Those among them that are mentioned inside lambdas. */
  function Reached(e: Expr): set<Name>
    decreases e, 1
  {
    match e
    case Quote(_) | Var(_) => {}
    case Set(_, e1) => Reached(e1)
    case If(c, t, f) => Reached(c) + Reached(t) + Reached(f)
    case Begin(e1, e2) => Reached(e1) + Reached(e2)
    case Lambda(_, _, _, _) => Mentions(e)
    case Call(fn, args) => Reached(fn) + ReachedAll(args)
  }

  function ReachedAll(es: seq<Expr>): set<Name>
    decreases es, 0
  {
    if es == [] then {} else Reached(es[0]) + ReachedAll(es[1..])
  }

  /** From `s` to `t` the innermost scope has captured its variables in `near`, and every scope around it those of its
      variables in `far` that no scope inside binds. */
  ghost predicate Gained(s: Scope, t: Scope, near: set<Name>, far: set<Name>)
    decreases s
  {
    && s.params == t.params && s.rest == t.rest && s.locals == t.locals && s.up.Some? == t.up.Some?
    && (forall x :: x in t.captures <==> x in s.captures || (x in near && x in Names(s)))
    && (s.up.Some? ==>
        var outside := far - Bound(s.params, s.rest, s.locals);
        Gained(s.up.value, t.up.value, outside, outside))
  }

  lemma {:induction false} GainedNothing(s: Scope)
    ensures Gained(s, s, {}, {})
    decreases s
  {
    if s.up.Some? {
      GainedNothing(s.up.value);
      assert {} - Bound(s.params, s.rest, s.locals) == {};
    }
  }

  lemma {:induction false} GainedBoth(s: Scope, t: Scope, u: Scope, n1: set<Name>, f1: set<Name>, n2: set<Name>,
                                      f2: set<Name>)
    requires Gained(s, t, n1, f1) && Gained(t, u, n2, f2)
    ensures Gained(s, u, n1 + n2, f1 + f2)
    decreases s
  {
    if s.up.Some? {
      var b := Bound(s.params, s.rest, s.locals);
      GainedBoth(s.up.value, t.up.value, u.up.value, f1 - b, f1 - b, f2 - b, f2 - b);
      assert (f1 + f2) - b == (f1 - b) + (f2 - b);
    }
  }

  /** Looking up a variable captures it in the scope that binds it, unless that is where the search began. */
  lemma {:induction false} FindVarGains(s: Scope, x: Name, depth: nat)
    ensures Gained(s, A.FindVar(s, x, depth).1, if depth > 0 then {x} else {}, {x})
    decreases s
  {
    var b := Bound(s.params, s.rest, s.locals);
    if x in Names(s) {
      if s.up.Some? {
        GainedNothing(s.up.value);
        assert {x} - b == {};
      }
    } else if s.up.Some? {
      FindVarGains(s.up.value, x, depth + 1);
      assert {x} - b == {x};
    }
  }

  lemma {:induction false} AnalyzeGains(s: Scope, e: Expr)
    ensures Gained(s, A.Analyze(s, e).1, Reached(e), Mentions(e))
    decreases e, 1
  {
    hide Gained;
    match e
    case Quote(_) => GainedNothing(s);
    case Var(x) => FindVarGains(s, x, 0);
    case Set(x, e1) =>
      FindVarGains(s, x, 0);
      var s1 := A.AnalyzeVar(s, x).1;
      AnalyzeGains(s1, e1);
      GainedBoth(s, s1, A.Analyze(s1, e1).1, {}, {x}, Reached(e1), Mentions(e1));
      assert {} + Reached(e1) == Reached(e1);
    case If(c, t, f) =>
      AnalyzeGains(s, c);
      var s1 := A.Analyze(s, c).1;
      AnalyzeGains(s1, t);
      var s2 := A.Analyze(s1, t).1;
      AnalyzeGains(s2, f);
      GainedBoth(s, s1, s2, Reached(c), Mentions(c), Reached(t), Mentions(t));
      GainedBoth(s, s2, A.Analyze(s2, f).1, Reached(c) + Reached(t), Mentions(c) + Mentions(t), Reached(f),
                 Mentions(f));
    case Begin(e1, e2) =>
      AnalyzeGains(s, e1);
      var s1 := A.Analyze(s, e1).1;
      AnalyzeGains(s1, e2);
      GainedBoth(s, s1, A.Analyze(s1, e2).1, Reached(e1), Mentions(e1), Reached(e2), Mentions(e2));
    case Lambda(ps, r, ls, body) =>
      AnalyzeGains(Scope(ps, r, ls, [], Some(s)), body);
      LambdaGains(Scope(ps, r, ls, [], Some(s)), A.Analyze(Scope(ps, r, ls, [], Some(s)), body).1, body);
    case Call(fn, args) =>
      AnalyzeGains(s, fn);
      var s1 := A.Analyze(s, fn).1;
      AnalyzeListGains(s1, args);
      GainedBoth(s, s1, A.AnalyzeList(s1, args).1, Reached(fn), Mentions(fn), ReachedAll(args), MentionsAll(args));
  }

  /** What a lambda leaves in the scopes around it, and in its own. */
  lemma LambdaGains(entry: Scope, inner: Scope, body: Expr)
    requires Gained(entry, inner, Reached(body), Mentions(body)) && entry.up.Some?
    ensures var outside := Mentions(body) - Bound(entry.params, entry.rest, entry.locals);
      inner.up.Some? && Gained(entry.up.value, inner.up.value, outside, outside)
    ensures entry.captures == [] ==> forall x :: x in inner.captures <==> x in Reached(body) && x in Names(entry)
  {
  }

  lemma {:induction false} AnalyzeListGains(s: Scope, es: seq<Expr>)
    ensures Gained(s, A.AnalyzeList(s, es).1, ReachedAll(es), MentionsAll(es))
    decreases es, 0
  {
    hide Gained;
    if es == [] {
      GainedNothing(s);
    } else {
      AnalyzeGains(s, es[0]);
      var s1 := A.Analyze(s, es[0]).1;
      AnalyzeListGains(s1, es[1..]);
      GainedBoth(s, s1, A.AnalyzeList(s1, es[1..]).1, Reached(es[0]), Mentions(es[0]), ReachedAll(es[1..]),
                 MentionsAll(es[1..]));
    }
  }

  /** Every lambda in the analyzed form has captured exactly those of its variables that lambdas inside it mention. */
  ghost predicate Exact(e: Expr, a: AExpr)
    decreases e, 1
  {
    match e
    case Quote(_) | Var(_) => true
    case Set(_, e1) => a.ASet? && Exact(e1, a.e)
    case If(c, t, f) => a.AIf? && Exact(c, a.c) && Exact(t, a.t) && Exact(f, a.f)
    case Begin(e1, e2) => a.ABegin? && Exact(e1, a.e1) && Exact(e2, a.e2)
    case Lambda(ps, r, ls, body) =>
      && a.ALambda? && Exact(body, a.body)
      && forall x :: x in a.captures <==> x in Reached(body) && x in FrameNames(ps, r, ls)
    case Call(fn, args) => a.ACall? && Exact(fn, a.fn) && AllExact(args, a.args)
  }

  ghost predicate AllExact(es: seq<Expr>, as': seq<AExpr>)
    decreases es, 0
  {
    |es| == |as'| && (es != [] ==> Exact(es[0], as'[0]) && AllExact(es[1..], as'[1..]))
  }

  lemma {:induction false} AnalyzeExact(s: Scope, e: Expr)
    ensures Exact(e, A.Analyze(s, e).0)
    decreases e, 1
  {
    hide Gained, Reached, Mentions, A.AnalyzeVar;
    match e
    case Quote(_) | Var(_) =>
    case Set(x, e1) => AnalyzeExact(A.AnalyzeVar(s, x).1, e1);
    case If(c, t, f) =>
      AnalyzeExact(s, c);
      AnalyzeExact(A.Analyze(s, c).1, t);
      AnalyzeExact(A.Analyze(A.Analyze(s, c).1, t).1, f);
    case Begin(e1, e2) =>
      AnalyzeExact(s, e1);
      AnalyzeExact(A.Analyze(s, e1).1, e2);
    case Lambda(ps, r, ls, body) =>
      var entry := Scope(ps, r, ls, [], Some(s));
      AnalyzeExact(entry, body);
      AnalyzeGains(entry, body);
      LambdaGains(entry, A.Analyze(entry, body).1, body);
    case Call(fn, args) =>
      AnalyzeExact(s, fn);
      AnalyzeListExact(A.Analyze(s, fn).1, args);
  }

  lemma {:induction false} AnalyzeListExact(s: Scope, es: seq<Expr>)
    ensures AllExact(es, A.AnalyzeList(s, es).0)
    decreases es, 0
  {
    if es != [] {
      AnalyzeExact(s, es[0]);
      AnalyzeListExact(A.Analyze(s, es[0]).1, es[1..]);
      assert A.AnalyzeList(s, es).0[1..] == A.AnalyzeList(A.Analyze(s, es[0]).1, es[1..]).0;
    }
  }

  /** For whole programs. */
  lemma ProgramExact(e: Expr)
    ensures Exact(e, A.AnalyzeProgram(e))
  {
    AnalyzeExact(A.TOP_SCOPE, e);
  }
}
