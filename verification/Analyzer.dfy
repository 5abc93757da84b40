/** Lexical addressing: `analyze` turns names into distances and records, in each scope, the
    variables that inner lambdas reach for. */
module Analyzer {
  import opened Util
  import opened Syntax

  const TOP_SCOPE: Scope := Scope([], None, [], [], None)

  /** `scope->depth`: the number of scopes around this one. */
  function Depth(s: Scope): nat {
    match s.up
    case None => 0
    case Some(u) => 1 + Depth(u)
  }

  function AddOnce(xs: seq<Name>, x: Name): seq<Name> {
    if x in xs then xs else xs + [x]
  }

  /** `find_var`: the distance of the binder, marking the variable as captured there when the
      distance is positive. A variable bound nowhere gets the depth of the outermost scope. */
  function FindVar(s: Scope, x: Name, depth: nat): (nat, Scope) {
    if x in Names(s) then
      (depth, if depth > 0 then s.(captures := AddOnce(s.captures, x)) else s)
    else
      match s.up
      case None => (depth, s)
      case Some(u) =>
        var (d, u1) := FindVar(u, x, depth + 1);
        (d, s.(up := Some(u1)))
  }

  function AnalyzeVar(s: Scope, x: Name): (Ref, Scope) {
    var (d, s1) := FindVar(s, x, 0);
    (if d == Depth(s) then GRef(x) else if d == 0 then LRef(x) else CRef(d, x), s1)
  }

  function Analyze(s: Scope, e: Expr): (AExpr, Scope)
    decreases e, 1
  {
    match e
    case Quote(d) => (AQuote(d), s)
    case Var(x) =>
      var (r, s1) := AnalyzeVar(s, x);
      (AVar(r), s1)
    case Set(x, e1) =>
      var (r, s1) := AnalyzeVar(s, x);
      var (a, s2) := Analyze(s1, e1);
      (ASet(r, a), s2)
    case If(c, t, f) =>
      var (ac, s1) := Analyze(s, c);
      var (at, s2) := Analyze(s1, t);
      var (af, s3) := Analyze(s2, f);
      (AIf(ac, at, af), s3)
    case Begin(e1, e2) =>
      var (a1, s1) := Analyze(s, e1);
      var (a2, s2) := Analyze(s1, e2);
      (ABegin(a1, a2), s2)
    case Lambda(ps, r, ls, body) =>
      var (ab, inner) := Analyze(Scope(ps, r, ls, [], Some(s)), body);
      (ALambda(ps, r, ls, inner.captures, ab), if inner.up.Some? then inner.up.value else s)
    case Call(fn, args) =>
      var (af, s1) := Analyze(s, fn);
      var (aa, s2) := AnalyzeList(s1, args);
      (ACall(af, aa), s2)
  }

  function AnalyzeList(s: Scope, es: seq<Expr>): (seq<AExpr>, Scope)
    decreases es, 0
  {
    if es == [] then ([], s)
    else
      var (a, s1) := Analyze(s, es[0]);
      var (as', s2) := AnalyzeList(s1, es[1..]);
      ([a] + as', s2)
  }

  /** `pic_analyze`. */
  function AnalyzeProgram(e: Expr): AExpr {
    Analyze(TOP_SCOPE, e).0
  }

  // ---------- what a correct lexical address is ----------

  /** The distance of the innermost scope that binds `x`, independently of `find_var`. */
  function Distance(s: Scope, x: Name): Option<nat> {
    if x in Names(s) then Some(0)
    else match s.up
      case None => None
      case Some(u) =>
        match Distance(u, x)
        case None => None
        case Some(d) => Some(d + 1)
  }

  /** The scope `d` levels out. */
  function Outer(s: Scope, d: nat): Option<Scope> {
    if d == 0 then Some(s)
    else match s.up
      case None => None
      case Some(u) => Outer(u, d - 1)
  }

  /** `r` addresses `x`: local at distance 0, captured by its binder at distance `d`, global
      when nothing binds it. */
  ghost predicate AddressedRef(s: Scope, x: Name, r: Ref) {
    match Distance(s, x)
    case None => r == GRef(x)
    case Some(d) =>
      if d == 0 then r == LRef(x)
      else r == CRef(d, x) && Outer(s, d).Some? && x in Outer(s, d).value.captures
  }

  /** `a` is `e` with every variable correctly addressed, in a chain of scopes whose capture
      lists are final. */
  ghost predicate Addressed(s: Scope, e: Expr, a: AExpr)
    decreases e, 1
  {
    match e
    case Quote(d) => a == AQuote(d)
    case Var(x) => a.AVar? && AddressedRef(s, x, a.ref)
    case Set(x, e1) => a.ASet? && AddressedRef(s, x, a.ref) && Addressed(s, e1, a.e)
    case If(c, t, f) => a.AIf? && Addressed(s, c, a.c) && Addressed(s, t, a.t) && Addressed(s, f, a.f)
    case Begin(e1, e2) => a.ABegin? && Addressed(s, e1, a.e1) && Addressed(s, e2, a.e2)
    case Lambda(ps, r, ls, body) =>
      && a.ALambda? && a.params == ps && a.rest == r && a.locals == ls
      && CapturesOk(Scope(ps, r, ls, a.captures, Some(s)))
      && Addressed(Scope(ps, r, ls, a.captures, Some(s)), body, a.body)
    case Call(fn, args) => a.ACall? && Addressed(s, fn, a.fn) && AddressedList(s, args, a.args)
  }

  ghost predicate AddressedList(s: Scope, es: seq<Expr>, as': seq<AExpr>)
    decreases es, 0
  {
    |es| == |as'| &&
    (es != [] ==> Addressed(s, es[0], as'[0]) && AddressedList(s, es[1..], as'[1..]))
  }

  ghost predicate CapturesOk(s: Scope) {
    NoDup(s.captures) && forall x :: x in s.captures ==> x in Names(s)
  }

  /** Every scope's captures are its own variables, and the outermost scope binds nothing. */
  ghost predicate ChainOk(s: Scope) {
    CapturesOk(s) && if s.up.Some? then ChainOk(s.up.value) else Names(s) == []
  }

  /** `t` is `s` with, at most, more captures. */
  ghost predicate Grows(s: Scope, t: Scope) {
    && s.params == t.params && s.rest == t.rest && s.locals == t.locals
    && (forall x :: x in s.captures ==> x in t.captures)
    && s.up.Some? == t.up.Some?
    && (s.up.Some? ==> Grows(s.up.value, t.up.value))
  }

  lemma {:induction false} GrowsRefl(s: Scope)
    ensures Grows(s, s)
  {
    if s.up.Some? { GrowsRefl(s.up.value); }
  }

  lemma {:induction false} GrowsTrans(s: Scope, t: Scope, u: Scope)
    requires Grows(s, t) && Grows(t, u)
    ensures Grows(s, u)
  {
    if s.up.Some? { GrowsTrans(s.up.value, t.up.value, u.up.value); }
  }

  /** `find_var` only adds captures, and keeps every capture list duplicate-free. */
  lemma {:induction false} FindVarGrows(s: Scope, x: Name, depth: nat)
    requires ChainOk(s)
    ensures ChainOk(FindVar(s, x, depth).1) && Grows(s, FindVar(s, x, depth).1)
  {
    if x !in Names(s) && s.up.Some? {
      FindVarGrows(s.up.value, x, depth + 1);
    } else if s.up.Some? {
      GrowsRefl(s.up.value);
    }
  }

  /** `find_var` computes the distance, and after it the binder's captures hold the variable. */
  lemma {:induction false} FindVarFinds(s: Scope, x: Name, depth: nat)
    requires ChainOk(s)
    ensures var (d, s1) := FindVar(s, x, depth);
            match Distance(s, x)
            case None => d == depth + Depth(s)
            case Some(k) => d == depth + k && k < Depth(s) && Outer(s1, k).Some?
                            && (d > 0 ==> x in Outer(s1, k).value.captures)
  {
    if x !in Names(s) && s.up.Some? {
      FindVarFinds(s.up.value, x, depth + 1);
    }
  }

  /** Distances depend on the bound names only. */
  lemma {:induction false} GrowsDistance(s: Scope, t: Scope, x: Name)
    requires Grows(s, t)
    ensures Distance(s, x) == Distance(t, x) && Depth(s) == Depth(t)
  {
    if s.up.Some? { GrowsDistance(s.up.value, t.up.value, x); }
  }

  lemma {:induction false} GrowsOuter(s: Scope, t: Scope, d: nat, x: Name)
    requires Grows(s, t) && Outer(s, d).Some? && x in Outer(s, d).value.captures
    ensures Outer(t, d).Some? && x in Outer(t, d).value.captures
  {
    if d > 0 { GrowsOuter(s.up.value, t.up.value, d - 1, x); }
  }

  /** A variable is addressed correctly in every later state of the scope chain. */
  lemma AnalyzeVarAddresses(s: Scope, x: Name, final: Scope)
    requires ChainOk(s) && Grows(AnalyzeVar(s, x).1, final)
    ensures AddressedRef(final, x, AnalyzeVar(s, x).0)
  {
    var s1 := AnalyzeVar(s, x).1;
    FindVarGrows(s, x, 0);
    FindVarFinds(s, x, 0);
    GrowsTrans(s, s1, final);
    GrowsDistance(s, final, x);
    match Distance(s, x)
    case Some(d) => if d > 0 { GrowsOuter(s1, final, d, x); }
    case None =>
  }

  lemma {:induction false} AnalyzeGrows(s: Scope, e: Expr)
    requires ChainOk(s)
    ensures ChainOk(Analyze(s, e).1) && Grows(s, Analyze(s, e).1)
    decreases e, 1
  {
    match e
    case Quote(_) => GrowsRefl(s);
    case Var(x) => FindVarGrows(s, x, 0);
    case Set(x, e1) =>
      FindVarGrows(s, x, 0);
      var s1 := AnalyzeVar(s, x).1;
      AnalyzeGrows(s1, e1);
      GrowsTrans(s, s1, Analyze(s1, e1).1);
    case If(c, t, f) =>
      AnalyzeGrows(s, c);
      var s1 := Analyze(s, c).1;
      AnalyzeGrows(s1, t);
      var s2 := Analyze(s1, t).1;
      AnalyzeGrows(s2, f);
      GrowsTrans(s, s1, s2);
      GrowsTrans(s, s2, Analyze(s2, f).1);
    case Begin(e1, e2) =>
      AnalyzeGrows(s, e1);
      var s1 := Analyze(s, e1).1;
      AnalyzeGrows(s1, e2);
      GrowsTrans(s, s1, Analyze(s1, e2).1);
    case Lambda(ps, r, ls, body) =>
      AnalyzeGrows(Scope(ps, r, ls, [], Some(s)), body);
    case Call(fn, args) =>
      AnalyzeGrows(s, fn);
      var s1 := Analyze(s, fn).1;
      AnalyzeListGrows(s1, args);
      GrowsTrans(s, s1, AnalyzeList(s1, args).1);
  }

  lemma {:induction false} AnalyzeListGrows(s: Scope, es: seq<Expr>)
    requires ChainOk(s)
    ensures ChainOk(AnalyzeList(s, es).1) && Grows(s, AnalyzeList(s, es).1)
    decreases es, 0
  {
    if es == [] {
      GrowsRefl(s);
    } else {
      AnalyzeGrows(s, es[0]);
      var s1 := Analyze(s, es[0]).1;
      AnalyzeListGrows(s1, es[1..]);
      GrowsTrans(s, s1, AnalyzeList(s1, es[1..]).1);
    }
  }

  /** Lexical addressing is right, in every completion of the scope chain. */
  lemma {:induction false} AnalyzeAddresses(s: Scope, e: Expr, final: Scope)
    requires ChainOk(s) && Grows(Analyze(s, e).1, final)
    ensures Addressed(final, e, Analyze(s, e).0)
    decreases e, 1
  {
    match e
    case Quote(_) =>
    case Var(x) => AnalyzeVarAddresses(s, x, final);
    case Set(x, e1) =>
      var s1 := AnalyzeVar(s, x).1;
      FindVarGrows(s, x, 0);
      AnalyzeGrows(s1, e1);
      GrowsTrans(s1, Analyze(s1, e1).1, final);
      AnalyzeVarAddresses(s, x, final);
      AnalyzeAddresses(s1, e1, final);
    case If(c, t, f) =>
      var s1 := Analyze(s, c).1;
      AnalyzeGrows(s, c);
      var s2 := Analyze(s1, t).1;
      AnalyzeGrows(s1, t);
      var s3 := Analyze(s2, f).1;
      AnalyzeGrows(s2, f);
      GrowsTrans(s2, s3, final);
      GrowsTrans(s1, s2, final);
      AnalyzeAddresses(s, c, final);
      AnalyzeAddresses(s1, t, final);
      AnalyzeAddresses(s2, f, final);
    case Begin(e1, e2) =>
      var s1 := Analyze(s, e1).1;
      AnalyzeGrows(s, e1);
      AnalyzeGrows(s1, e2);
      GrowsTrans(s1, Analyze(s1, e2).1, final);
      AnalyzeAddresses(s, e1, final);
      AnalyzeAddresses(s1, e2, final);
    case Lambda(ps, r, ls, body) =>
      var entry := Scope(ps, r, ls, [], Some(s));
      var inner := Analyze(entry, body).1;
      AnalyzeGrows(entry, body);
      AnalyzeAddresses(entry, body, Scope(ps, r, ls, inner.captures, Some(final)));
    case Call(fn, args) =>
      var s1 := Analyze(s, fn).1;
      AnalyzeGrows(s, fn);
      AnalyzeListGrows(s1, args);
      GrowsTrans(s1, AnalyzeList(s1, args).1, final);
      AnalyzeAddresses(s, fn, final);
      AnalyzeListAddresses(s1, args, final);
  }

  lemma {:induction false} AnalyzeListAddresses(s: Scope, es: seq<Expr>, final: Scope)
    requires ChainOk(s) && Grows(AnalyzeList(s, es).1, final)
    ensures AddressedList(final, es, AnalyzeList(s, es).0)
    decreases es, 0
  {
    if es != [] {
      var s1 := Analyze(s, es[0]).1;
      AnalyzeGrows(s, es[0]);
      AnalyzeListGrows(s1, es[1..]);
      GrowsTrans(s1, AnalyzeList(s1, es[1..]).1, final);
      AnalyzeAddresses(s, es[0], final);
      AnalyzeListAddresses(s1, es[1..], final);
    }
  }

  /** A whole program is addressed against the scope that `pic_codegen` starts from. */
  lemma AnalyzeProgramAddressed(e: Expr)
    ensures Addressed(TOP_SCOPE, e, AnalyzeProgram(e))
  {
    AnalyzeGrows(TOP_SCOPE, e);
    AnalyzeAddresses(TOP_SCOPE, e, TOP_SCOPE);
  }
}
