/** The unifier of the logic library: triangular substitutions and no occurs check. */
module Unification {
  import opened Util

  datatype Term = Var(n: nat) | Atom(a: int) | Cons(car: Term, cdr: Term)

  /** An association list, the newest binding first. */
  type Subst = seq<(nat, Term)>

  /** What a run with bounded recursion depth says. */
  datatype Outcome = Success(s: Subst) | Failure | OutOfFuel

  // ---------- walking ----------

  function Index(x: nat, s: Subst): (i: nat)
    ensures i <= |s| && (i < |s| ==> s[i].0 == x) && forall j :: 0 <= j < i ==> s[j].0 != x
  {
    if s == [] || s[0].0 == x then 0 else 1 + Index(x, s[1..])
  }

  predicate Bound(x: nat, s: Subst) {
    Index(x, s) < |s|
  }

  /** Every binding was added for an unbound variable, to a walked term that is not this variable. */
  ghost predicate Triangular(s: Subst) {
    s != [] ==>
      Triangular(s[1..]) && !Bound(s[0].0, s[1..]) && s[0].1 != Var(s[0].0)
        && (s[0].1.Var? ==> !Bound(s[0].1.n, s[1..]))
  }

  /** A bound variable leads to a term that is not bound by an older binding. */
  lemma {:induction false} Newer(x: nat, s: Subst)
    requires Triangular(s) && Bound(x, s)
    ensures s[Index(x, s)].1.Var? ==> Index(s[Index(x, s)].1.n, s) < Index(x, s) || !Bound(s[Index(x, s)].1.n, s)
    decreases |s|
  {
    if s[0].0 != x {
      Newer(x, s[1..]);
    }
  }

  /** `subst`: follow variables to a term that is not a bound variable. */
  function Walk(u: Term, s: Subst): (t: Term)
    requires Triangular(s)
    ensures t.Var? ==> !Bound(t.n, s)
    decreases if u.Var? && Bound(u.n, s) then 1 + Index(u.n, s) else 0
  {
    if u.Var? && Bound(u.n, s) then
      Newer(u.n, s);
      Walk(s[Index(u.n, s)].1, s)
    else u
  }

  /** `subst*`, to a bounded depth. */
  function WalkAll(u: Term, s: Subst, fuel: nat): Option<Term>
    requires Triangular(s)
    decreases fuel
  {
    if fuel == 0 then None
    else
      var t := Walk(u, s);
      if t.Cons? then
        match (WalkAll(t.car, s, fuel - 1), WalkAll(t.cdr, s, fuel - 1))
        case (Some(a), Some(d)) => Some(Cons(a, d))
        case _ => None
      else Some(t)
  }

  /** `unify`, to a bounded depth. */
  function Unify(u0: Term, v0: Term, s: Subst, fuel: nat): (o: Outcome)
    requires Triangular(s)
    ensures o.Success? ==> Triangular(o.s)
    decreases fuel
  {
    if fuel == 0 then OutOfFuel
    else
      var u, v := Walk(u0, s), Walk(v0, s);
      if u.Var? && u == v then Success(s)
      else if u.Var? then Extended(u.n, v, s)
      else if v.Var? then Extended(v.n, u, s)
      else if u.Cons? && v.Cons? then
        match Unify(u.car, v.car, s, fuel - 1)
        case Success(s1) => Unify(u.cdr, v.cdr, s1, fuel - 1)
        case o => o
      else if u == v then Success(s)
      else Failure
  }

  function Extended(x: nat, t: Term, s: Subst): (o: Outcome)
    requires Triangular(s) && !Bound(x, s) && t != Var(x) && (t.Var? ==> !Bound(t.n, s))
    ensures o.Success? && Triangular(o.s) && o.s == [(x, t)] + s
  {
    var s1: Subst := [(x, t)] + s;
    assert s1[1..] == s;
    Success(s1)
  }

  // ---------- solutions ----------

  type Valuation = nat -> Term

  function Apply(t: Term, f: Valuation): Term {
    match t
    case Var(n) => f(n)
    case Atom(_) => t
    case Cons(a, d) => Cons(Apply(a, f), Apply(d, f))
  }

  /** A valuation by finite terms that makes every binding an equation. */
  ghost predicate Solves(f: Valuation, s: Subst) {
    forall i :: 0 <= i < |s| ==> f(s[i].0) == Apply(s[i].1, f)
  }

  ghost predicate Unifies(f: Valuation, u: Term, v: Term, s: Subst) {
    Solves(f, s) && Apply(u, f) == Apply(v, f)
  }

  /** Walking does not change what a solution makes of a term. */
  lemma {:induction false} WalkSame(u: Term, s: Subst, f: Valuation)
    requires Triangular(s) && Solves(f, s)
    ensures Apply(Walk(u, s), f) == Apply(u, f)
    decreases if u.Var? && Bound(u.n, s) then 1 + Index(u.n, s) else 0
  {
    if u.Var? && Bound(u.n, s) {
      Newer(u.n, s);
      WalkSame(s[Index(u.n, s)].1, s, f);
    }
  }

  lemma ExtendedSolves(x: nat, t: Term, s: Subst, f: Valuation)
    ensures Solves(f, [(x, t)] + s) <==> Solves(f, s) && f(x) == Apply(t, f)
  {
    var s1: Subst := [(x, t)] + s;
    assert forall i :: 0 <= i < |s| ==> s[i] == s1[i + 1];
    if Solves(f, s1) {
      assert s1[0] == (x, t);
    }
  }

  /** Success is most general: the new substitution has the solutions of the old one that make the
      terms equal, all of them and no others. */
  lemma {:induction false} MostGeneral(u0: Term, v0: Term, s: Subst, fuel: nat, f: Valuation)
    requires Triangular(s) && Unify(u0, v0, s, fuel).Success?
    ensures Solves(f, Unify(u0, v0, s, fuel).s) <==> Unifies(f, u0, v0, s)
    decreases fuel
  {
    var u, v := Walk(u0, s), Walk(v0, s);
    if Solves(f, s) {
      WalkSame(u0, s, f);
      WalkSame(v0, s, f);
    }
    if u.Var? && u == v {
    } else if u.Var? {
      ExtendedSolves(u.n, v, s, f);
    } else if v.Var? {
      ExtendedSolves(v.n, u, s, f);
    } else if u.Cons? && v.Cons? {
      var s1 := Unify(u.car, v.car, s, fuel - 1).s;
      MostGeneral(u.car, v.car, s, fuel - 1, f);
      MostGeneral(u.cdr, v.cdr, s1, fuel - 1, f);
    }
  }

  /** Failure means that no solution makes the terms equal. */
  lemma {:induction false} FailureSound(u0: Term, v0: Term, s: Subst, fuel: nat, f: Valuation)
    requires Triangular(s) && Unify(u0, v0, s, fuel).Failure?
    ensures !Unifies(f, u0, v0, s)
    decreases fuel
  {
    hide Solves, Walk, Triangular;
    if Unifies(f, u0, v0, s) {
      var u, v := Walk(u0, s), Walk(v0, s);
      WalkSame(u0, s, f);
      WalkSame(v0, s, f);
      if u.Cons? && v.Cons? {
        if Unify(u.car, v.car, s, fuel - 1).Failure? {
          FailureSound(u.car, v.car, s, fuel - 1, f);
        } else {
          MostGeneral(u.car, v.car, s, fuel - 1, f);
          FailureSound(u.cdr, v.cdr, Unify(u.car, v.car, s, fuel - 1).s, fuel - 1, f);
        }
      }
    }
  }

  function Height(t: Term): nat {
    match t
    case Cons(a, d) => 1 + if Height(a) > Height(d) then Height(a) else Height(d)
    case _ => 0
  }

  /** A solution bounds the depth of the recursion, and unification succeeds. */
  lemma {:induction false} SolutionSucceeds(u0: Term, v0: Term, s: Subst, fuel: nat, f: Valuation)
    requires Triangular(s) && Unifies(f, u0, v0, s) && fuel > Height(Apply(u0, f))
    ensures Unify(u0, v0, s, fuel).Success?
    decreases fuel
  {
    hide Solves, Walk, Triangular;
    var u, v := Walk(u0, s), Walk(v0, s);
    WalkSame(u0, s, f);
    WalkSame(v0, s, f);
    if u.Cons? && v.Cons? {
      SolutionSucceeds(u.car, v.car, s, fuel - 1, f);
      MostGeneral(u.car, v.car, s, fuel - 1, f);
      SolutionSucceeds(u.cdr, v.cdr, Unify(u.car, v.car, s, fuel - 1).s, fuel - 1, f);
    }
  }

  /** More fuel does not change an answer, so that an answer is the answer of the unbounded code. */
  lemma {:induction false} MoreFuel(u0: Term, v0: Term, s: Subst, m: nat, n: nat)
    requires Triangular(s) && m <= n && !Unify(u0, v0, s, m).OutOfFuel?
    ensures Unify(u0, v0, s, n) == Unify(u0, v0, s, m)
    decreases m
  {
    var u, v := Walk(u0, s), Walk(v0, s);
    if u.Cons? && v.Cons? {
      MoreFuel(u.car, v.car, s, m - 1, n - 1);
      if Unify(u.car, v.car, s, m - 1).Success? {
        MoreFuel(u.cdr, v.cdr, Unify(u.car, v.car, s, m - 1).s, m - 1, n - 1);
      }
    }
  }

  // ---------- acyclic substitutions ----------

  ghost predicate Ends(u: Term, s: Subst)
    requires Triangular(s)
  {
    exists n: nat :: WalkAll(u, s, n).Some?
  }

  /** `subst*` ends on every variable. */
  ghost predicate Acyclic(s: Subst)
    requires Triangular(s)
  {
    forall x: nat :: Ends(Var(x), s)
  }

  lemma {:induction false} WalkAllMore(u: Term, s: Subst, m: nat, n: nat)
    requires Triangular(s) && m <= n && WalkAll(u, s, m).Some?
    ensures WalkAll(u, s, n) == WalkAll(u, s, m)
    decreases m
  {
    var t := Walk(u, s);
    if t.Cons? {
      WalkAllMore(t.car, s, m - 1, n - 1);
      WalkAllMore(t.cdr, s, m - 1, n - 1);
    }
  }

  /** What `subst*` computes where it ends. */
  ghost function Resolved(u: Term, s: Subst): Term
    requires Triangular(s) && Ends(u, s)
  {
    var n: nat :| WalkAll(u, s, n).Some?;
    WalkAll(u, s, n).value
  }

  lemma ResolvedIs(u: Term, s: Subst, n: nat)
    requires Triangular(s) && WalkAll(u, s, n).Some?
    ensures Ends(u, s) && WalkAll(u, s, n) == Some(Resolved(u, s))
  {
    assert Ends(u, s);
    var m: nat :| WalkAll(u, s, m).Some? && Resolved(u, s) == WalkAll(u, s, m).value;
    if m <= n { WalkAllMore(u, s, m, n); } else { WalkAllMore(u, s, n, m); }
  }

  lemma ResolvedWalk(u: Term, s: Subst)
    requires Triangular(s) && Ends(u, s)
    ensures Ends(Walk(u, s), s) && Resolved(Walk(u, s), s) == Resolved(u, s)
  {
    var n: nat :| WalkAll(u, s, n).Some?;
    WalkTwice(u, s);
    assert WalkAll(Walk(u, s), s, n) == WalkAll(u, s, n);
    ResolvedIs(u, s, n);
    ResolvedIs(Walk(u, s), s, n);
  }

  lemma WalkTwice(u: Term, s: Subst)
    requires Triangular(s)
    ensures Walk(Walk(u, s), s) == Walk(u, s)
  {
  }

  lemma ResolvedCons(a: Term, d: Term, s: Subst)
    requires Triangular(s)
    requires Ends(a, s) && Ends(d, s)
    ensures Ends(Cons(a, d), s) && Resolved(Cons(a, d), s) == Cons(Resolved(a, s), Resolved(d, s))
  {
    var m: nat :| WalkAll(a, s, m).Some?;
    var k: nat :| WalkAll(d, s, k).Some?;
    WalkAllMore(a, s, m, m + k);
    WalkAllMore(d, s, k, m + k);
    ResolvedIs(a, s, m + k);
    ResolvedIs(d, s, m + k);
    ResolvedIs(Cons(a, d), s, m + k + 1);
  }

  /** The valuation that resolves every variable. */
  ghost function Resolving(s: Subst): Valuation
    requires Triangular(s) && Acyclic(s)
  {
    (x: nat) => if Ends(Var(x), s) then Resolved(Var(x), s) else Var(x)
  }

  lemma {:induction false} ResolveTerm(t: Term, s: Subst)
    requires Triangular(s) && Acyclic(s)
    ensures Ends(t, s) && Apply(t, Resolving(s)) == Resolved(t, s)
    decreases t
  {
    match t
    case Var(x) => assert Ends(Var(x), s);
    case Atom(_) =>
      assert WalkAll(t, s, 1) == Some(t);
      ResolvedIs(t, s, 1);
    case Cons(a, d) =>
      ResolveTerm(a, s);
      ResolveTerm(d, s);
      ResolvedCons(a, d, s);
  }

  /** Resolving every variable is a solution. */
  lemma ResolvingSolves(s: Subst)
    requires Triangular(s) && Acyclic(s)
    ensures Solves(Resolving(s), s)
  {
    forall i | 0 <= i < |s|
      ensures Resolving(s)(s[i].0) == Apply(s[i].1, Resolving(s))
    {
      var x := s[i].0;
      OnlyIndex(s, i);
      assert Ends(Var(x), s);
      ResolveTerm(s[i].1, s);
      assert Walk(Var(x), s) == Walk(s[i].1, s);
      ResolvedWalk(Var(x), s);
      ResolvedWalk(s[i].1, s);
    }
  }

  /** No variable is bound twice. */
  lemma {:induction false} OnlyIndex(s: Subst, i: nat)
    requires Triangular(s) && i < |s|
    ensures Index(s[i].0, s) == i
    decreases |s|
  {
    if i > 0 {
      OnlyIndex(s[1..], i - 1);
      assert Bound(s[i].0, s[1..]) && s[i].0 == s[1..][i - 1].0;
    }
  }

  /** A solution bounds the depth of `subst*`. */
  lemma {:induction false} SolutionEnds(u: Term, s: Subst, fuel: nat, f: Valuation)
    requires Triangular(s) && Solves(f, s) && fuel > Height(Apply(u, f))
    ensures WalkAll(u, s, fuel).Some?
    decreases fuel
  {
    WalkSame(u, s, f);
    var t := Walk(u, s);
    if t.Cons? {
      SolutionEnds(t.car, s, fuel - 1, f);
      SolutionEnds(t.cdr, s, fuel - 1, f);
    }
  }

  /** A substitution is acyclic exactly when it has a solution by finite terms. */
  lemma AcyclicIffSolvable(s: Subst)
    requires Triangular(s)
    ensures Acyclic(s) <==> exists f: Valuation :: Solves(f, s)
  {
    if Acyclic(s) {
      ResolvingSolves(s);
    }
    if f: Valuation :| Solves(f, s) {
      forall x: nat
        ensures Ends(Var(x), s)
      {
        SolutionEnds(Var(x), s, Height(f(x)) + 1, f);
      }
    }
  }

  /** When the result is acyclic, `subst*` makes the two terms equal. */
  lemma UnifyEquates(u: Term, v: Term, s: Subst, fuel: nat)
    requires Triangular(s) && Unify(u, v, s, fuel).Success? && Acyclic(Unify(u, v, s, fuel).s)
    ensures var s1 := Unify(u, v, s, fuel).s;
            Ends(u, s1) && Ends(v, s1) && Resolved(u, s1) == Resolved(v, s1)
  {
    var s1 := Unify(u, v, s, fuel).s;
    ResolvingSolves(s1);
    MostGeneral(u, v, s, fuel, Resolving(s1));
    ResolveTerm(u, s1);
    ResolveTerm(v, s1);
  }

  ghost predicate Unifiable(u: Term, v: Term, s: Subst) {
    exists f: Valuation :: Unifies(f, u, v, s)
  }

  /** Some run succeeds with an acyclic substitution exactly when a finite-term solution exists. */
  lemma UnifyComplete(u: Term, v: Term, s: Subst)
    requires Triangular(s)
    ensures Unifiable(u, v, s) <==>
            exists n: nat :: Unify(u, v, s, n).Success? && Acyclic(Unify(u, v, s, n).s)
  {
    if f: Valuation :| Unifies(f, u, v, s) {
      var n := Height(Apply(u, f)) + 1;
      SolutionSucceeds(u, v, s, n, f);
      MostGeneral(u, v, s, n, f);
      AcyclicIffSolvable(Unify(u, v, s, n).s);
    }
    if n: nat :| Unify(u, v, s, n).Success? && Acyclic(Unify(u, v, s, n).s) {
      var s1 := Unify(u, v, s, n).s;
      ResolvingSolves(s1);
      MostGeneral(u, v, s, n, Resolving(s1));
    }
  }

  // ---------- without an occurs check ----------

  const TWIN: Term := Cons(Var(0), Var(0))
  const OTHER_TWIN: Term := Cons(Var(1), Var(1))

  /** Unifying a variable with a pair that contains it succeeds, with a substitution that no finite
      term solves. */
  lemma CyclicSuccess(fuel: nat)
    requires fuel > 0
    ensures Unify(Var(0), TWIN, [], fuel) == Success([(0, TWIN)])
    ensures forall f: Valuation :: !Unifies(f, Var(0), TWIN, [])
    ensures Triangular([(0, TWIN)]) && !Acyclic([(0, TWIN)])
  {
    var s: Subst := [(0, TWIN)];
    assert s[1..] == [] && [(0, TWIN)] + [] == s;
    forall f: Valuation
      ensures Apply(Var(0), f) != Apply(TWIN, f)
    {
      assert Height(Apply(TWIN, f)) == 1 + Height(f(0));
    }
    forall f: Valuation
      ensures !Solves(f, s)
    {
      assert s[0] == (0, TWIN);
    }
    AcyclicIffSolvable(s);
  }

  /** On two such substitutions unification never ends. */
  lemma {:induction false} CyclicDiverges(fuel: nat)
    ensures Triangular([(1, OTHER_TWIN), (0, TWIN)])
    ensures Unify(Var(0), Var(1), [(1, OTHER_TWIN), (0, TWIN)], fuel) == OutOfFuel
    decreases fuel
  {
    var s: Subst := [(1, OTHER_TWIN), (0, TWIN)];
    CyclicTriangular();
    if fuel > 0 {
      CyclicWalks();
      CyclicDiverges(fuel - 1);
    }
  }

  lemma CyclicTriangular()
    ensures Triangular([(1, OTHER_TWIN), (0, TWIN)])
  {
    var one: Subst := [(0, TWIN)];
    var s: Subst := [(1, OTHER_TWIN), (0, TWIN)];
    assert one[1..] == [] && s[1..] == one;
    assert Triangular([]);
    assert Triangular(one);
    assert Triangular(s);
  }

  lemma CyclicWalks()
    requires Triangular([(1, OTHER_TWIN), (0, TWIN)])
    ensures Walk(Var(0), [(1, OTHER_TWIN), (0, TWIN)]) == TWIN
    ensures Walk(Var(1), [(1, OTHER_TWIN), (0, TWIN)]) == OTHER_TWIN
  {
    var s: Subst := [(1, OTHER_TWIN), (0, TWIN)];
    assert s[1..] == [(0, TWIN)];
    assert Index(0, s[1..]) == 0;
    assert Index(0, s) == 1 && Index(1, s) == 0;
  }
}
