/** `analyze` as it runs: scopes linked to the scopes around them, whose captures grow. */
module ScopeMarking {
  import opened Util
  import opened Syntax
  import A = Analyzer

  class AnalyzeScope {
    const depth: nat
    const params: seq<Name>
    const rest: Option<Name>
    const locals: seq<Name>
    var captures: seq<Name>
    const up: AnalyzeScope?

    ghost predicate Linked()
      decreases depth
    {
      if up == null then depth == 0 else depth == up.depth + 1 && up.Linked()
    }

    /** This scope and those around it. */
    ghost function Chain(): (c: set<AnalyzeScope>)
      requires Linked()
      ensures this in c && forall x :: x in c ==> x.depth <= depth && (x.depth == depth ==> x == this)
      decreases depth
    {
      if up == null then {this} else {this} + up.Chain()
    }

    /** The scope as a value. */
    ghost function View(): Scope
      requires Linked()
      reads Chain()
      decreases depth
    {
      Scope(params, rest, locals, captures, if up == null then None else Some(up.View()))
    }

    /** `analyzer_scope_init` */
    constructor (params: seq<Name>, rest: Option<Name>, locals: seq<Name>, up: AnalyzeScope?)
      requires up != null ==> up.Linked()
      ensures Linked() && fresh(this) && this.up == up
      ensures Chain() == if up == null then {this} else {this} + up.Chain()
      ensures View() == Scope(params, rest, locals, [], if up == null then None else Some(up.View()))
    {
      this.depth := if up == null then 0 else up.depth + 1;
      this.params := params;
      this.rest := rest;
      this.locals := locals;
      this.captures := [];
      this.up := up;
    }

    /** `find_local_var` */
    method FindLocalVar(sym: Name) returns (found: bool)
      ensures found == (sym in FrameNames(params, rest, locals))
    {
      for i := 0 to |params|
        invariant sym !in params[..i]
      {
        if params[i] == sym { return true; }
      }
      if rest == Some(sym) { return true; }
      for i := 0 to |locals|
        invariant sym !in locals[..i]
      {
        if locals[i] == sym { return true; }
      }
      assert params[..|params|] == params && locals[..|locals|] == locals;
      found := false;
    }

    /** `find_var`: the distance of the binder, which is marked when it is not this scope. */
    method FindVar(sym: Name) returns (distance: nat)
      requires Linked()
      modifies Chain()
      ensures (distance, View()) == A.FindVar(old(View()), sym, 0)
    {
      var scope: AnalyzeScope? := this;
      var depth := 0;
      ghost var m := CapturesOf(this);
      ViewIs(this, m);
      while scope != null
        invariant 0 <= depth && (scope == null ==> depth > 0)
        invariant scope != null ==> scope.Linked() && scope in Chain() && scope.depth + depth == this.depth
        invariant scope != null ==> Reaches(this, scope, sym)
        invariant scope == null ==> A.FindVar(ViewIn(this, m), sym, 0) == (depth - 1, ViewIn(this, m))
        invariant forall x :: x in Chain() ==> x in m && x.captures == m[x]
        decreases if scope == null then 0 else scope.depth + 1
      {
        label Before:
        ChainAllocated(this);
        var found := scope.FindLocalVar(sym);
        forall x | x in Chain() ensures x.captures == m[x] {
          assert old@Before(allocated(x)) && old@Before(x.captures) == m[x];
        }
        if found {
          if depth > 0 {
            scope.captures := A.AddOnce(scope.captures, sym);
          }
          ghost var m1 := CapturesOf(this);
          ViewIs(this, m1);
          Marked(this, scope, sym, 0, m, m1);
          return depth;
        }
        ReachesUp(this, scope, sym);
        if scope.up == null {
          ViewIs(this, m);
          Unbound(this, scope, sym, 0);
        }
        depth := depth + 1;
        scope := scope.up;
      }
      ViewIs(this, m);
      distance := depth - 1;
    }
  }

  lemma {:induction false} ChainAllocated(s: AnalyzeScope)
    requires s.Linked()
    ensures forall x :: x in s.Chain() ==> allocated(x)
    decreases s.depth
  {
    if s.up != null { ChainAllocated(s.up); }
  }

  /** No scope from `s` up to, and without, `t` binds `x`. */
  ghost predicate Reaches(s: AnalyzeScope, t: AnalyzeScope, x: Name)
    requires s.Linked()
    decreases s.depth
  {
    s == t || (x !in FrameNames(s.params, s.rest, s.locals) && s.up != null && Reaches(s.up, t, x))
  }

  lemma {:induction false} ReachesUp(s: AnalyzeScope, t: AnalyzeScope, x: Name)
    requires s.Linked() && t.Linked() && Reaches(s, t, x) && x !in FrameNames(t.params, t.rest, t.locals)
    ensures t.up != null ==> Reaches(s, t.up, x) && t.up in s.Chain()
    decreases s.depth
  {
    if s != t { ReachesUp(s.up, t, x); }
  }

  /** A name bound nowhere gets the distance of the outermost scope. */
  lemma {:induction false} Unbound(s: AnalyzeScope, t: AnalyzeScope, x: Name, d: nat)
    requires s.Linked() && t.Linked() && Reaches(s, t, x) && x !in FrameNames(t.params, t.rest, t.locals)
      && t.up == null
    ensures A.FindVar(s.View(), x, d) == (d + s.depth, s.View())
    decreases s.depth
  {
    if s != t { Unbound(s.up, t, x, d + 1); }
  }

  ghost function CapturesOf(s: AnalyzeScope): Captures
    requires s.Linked()
    reads s.Chain()
  {
    map y | y in s.Chain() :: y.captures
  }

  /** What the captures of some scopes are. */
  type Captures = map<AnalyzeScope, seq<Name>>

  /** A scope as a value, with its captures taken from `m`. */
  ghost function ViewIn(s: AnalyzeScope, m: Captures): Scope
    requires s.Linked()
    decreases s.depth
  {
    Scope(s.params, s.rest, s.locals, if s in m then m[s] else [], if s.up == null then None else Some(ViewIn(s.up, m)))
  }

  lemma {:induction false} ViewIs(s: AnalyzeScope, m: Captures)
    requires s.Linked() && forall y :: y in s.Chain() ==> y in m && y.captures == m[y]
    ensures s.View() == ViewIn(s, m)
    decreases s.depth
  {
    if s.up != null { ViewIs(s.up, m); }
  }

  lemma {:induction false} ViewSame(s: AnalyzeScope, m: Captures, m1: Captures)
    requires s.Linked() && forall y :: y in s.Chain() ==> y in m && y in m1 && m[y] == m1[y]
    ensures ViewIn(s, m) == ViewIn(s, m1)
    decreases s.depth
  {
    if s.up != null { ViewSame(s.up, m, m1); }
  }

  /** Marking the binder is all that changes. */
  lemma {:induction false} Marked(s: AnalyzeScope, t: AnalyzeScope, x: Name, d: nat, m: Captures, m1: Captures)
    requires s.Linked() && t.Linked() && Reaches(s, t, x) && x in FrameNames(t.params, t.rest, t.locals)
    requires t.depth <= s.depth && t in m && t in m1
    requires m1[t] == if d + (s.depth - t.depth) > 0 then A.AddOnce(m[t], x) else m[t]
    requires forall y :: y in s.Chain() && y != t ==> y in m && y in m1 && m1[y] == m[y]
    ensures (d + (s.depth - t.depth), ViewIn(s, m1)) == A.FindVar(ViewIn(s, m), x, d)
    decreases s.depth
  {
    if s == t {
      if s.up != null { ViewSame(s.up, m, m1); }
    } else {
      DeeperOnly(s.up, t, x);
      Marked(s.up, t, x, d + 1, m, m1);
    }
  }

  lemma {:induction false} DeeperOnly(s: AnalyzeScope, t: AnalyzeScope, x: Name)
    requires s.Linked() && Reaches(s, t, x)
    ensures t.depth <= s.depth
    decreases s.depth
  {
    if s != t { DeeperOnly(s.up, t, x); }
  }

  /** `analyze_var` */
  method AnalyzeVar(scope: AnalyzeScope, sym: Name) returns (r: Ref)
    requires scope.Linked()
    modifies scope.Chain()
    ensures (r, scope.View()) == A.AnalyzeVar(old(scope.View()), sym)
  {
    DepthIs(scope);
    var depth := scope.FindVar(sym);
    if depth == scope.depth {
      r := GRef(sym);
    } else if depth == 0 {
      r := LRef(sym);
    } else {
      r := CRef(depth, sym);
    }
  }

  lemma {:induction false} DepthIs(s: AnalyzeScope)
    requires s.Linked()
    ensures A.Depth(s.View()) == s.depth
    decreases s.depth
  {
    if s.up != null { DepthIs(s.up); }
  }

  /** `analyze` */
  method Analyze(scope: AnalyzeScope, e: Expr) returns (a: AExpr)
    requires scope.Linked()
    modifies scope.Chain()
    ensures (a, scope.View()) == A.Analyze(old(scope.View()), e)
    decreases e, 1
  {
    match e
    case Quote(d) => a := AQuote(d);
    case Var(x) =>
      var r := AnalyzeVar(scope, x);
      a := AVar(r);
    case Set(x, e1) =>
      var r := AnalyzeVar(scope, x);
      var b := Analyze(scope, e1);
      a := ASet(r, b);
    case If(c, t, f) =>
      var ac := Analyze(scope, c);
      var at := Analyze(scope, t);
      var af := Analyze(scope, f);
      a := AIf(ac, at, af);
    case Begin(e1, e2) =>
      var a1 := Analyze(scope, e1);
      var a2 := Analyze(scope, e2);
      a := ABegin(a1, a2);
    case Lambda(_, _, _, _) => a := AnalyzeLambda(scope, e);
    case Call(fn, args) =>
      var af := Analyze(scope, fn);
      var aa := AnalyzeList(scope, args);
      a := ACall(af, aa);
  }

  /** `analyze_lambda` */
  method AnalyzeLambda(up: AnalyzeScope, form: Expr) returns (a: AExpr)
    requires up.Linked() && form.Lambda?
    modifies up.Chain()
    ensures (a, up.View()) == A.Analyze(old(up.View()), form)
    decreases form, 0
  {
    ghost var v0 := up.View();
    ghost var m := CapturesOf(up);
    ViewIs(up, m);
    ChainAllocated(up);
    var scope := new AnalyzeScope(form.params, form.rest, form.locals, up);
    ViewIs(up, m);
    ghost var inner := scope.View();
    assert inner == Scope(form.params, form.rest, form.locals, [], Some(v0));
    var body := Analyze(scope, form.body);
    assert scope.View().up == Some(up.View()) && scope.View().captures == scope.captures;
    assert (body, scope.View()) == A.Analyze(inner, form.body);
    a := ALambda(form.params, form.rest, form.locals, scope.captures, body);
  }

  /** `analyze_list` */
  method AnalyzeList(scope: AnalyzeScope, es: seq<Expr>) returns (out: seq<AExpr>)
    requires scope.Linked()
    modifies scope.Chain()
    ensures (out, scope.View()) == A.AnalyzeList(old(scope.View()), es)
    decreases es, 0
  {
    out := [];
    assert es[0..] == es && out + A.AnalyzeList(scope.View(), es).0 == A.AnalyzeList(scope.View(), es).0;
    for i := 0 to |es|
      invariant |out| == i
      invariant A.AnalyzeList(old(scope.View()), es)
             == (out + A.AnalyzeList(scope.View(), es[i..]).0, A.AnalyzeList(scope.View(), es[i..]).1)
    {
      ghost var was, s0 := out, scope.View();
      assert es[i..][0] == es[i] && es[i..][1..] == es[i + 1..];
      var a := Analyze(scope, es[i]);
      out := out + [a];
      ListNext(was, a, s0, scope.View(), es[i..]);
    }
    assert es[|es|..] == [];
    assert out + [] == out;
  }

  lemma ListNext(was: seq<AExpr>, a: AExpr, s: Scope, s1: Scope, es: seq<Expr>)
    requires es != [] && (a, s1) == A.Analyze(s, es[0])
    ensures was + A.AnalyzeList(s, es).0 == was + [a] + A.AnalyzeList(s1, es[1..]).0
    ensures A.AnalyzeList(s, es).1 == A.AnalyzeList(s1, es[1..]).1
  {
    assert A.AnalyzeList(s, es).0 == [a] + A.AnalyzeList(s1, es[1..]).0;
    assert was + ([a] + A.AnalyzeList(s1, es[1..]).0) == was + [a] + A.AnalyzeList(s1, es[1..]).0;
  }

  /** `pic_analyze` */
  method AnalyzeProgram(e: Expr) returns (a: AExpr)
    ensures a == A.AnalyzeProgram(e)
  {
    var top := new AnalyzeScope([], None, [], null);
    a := Analyze(top, e);
  }
}
