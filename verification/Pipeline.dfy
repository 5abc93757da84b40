/** The whole pipeline: optimize, normalize, analyze, generate, run. */
module Pipeline {
  import opened Util
  import opened Syntax
  import opened CoreForms
  import opened Merging
  import Sharing
  import Frames
  import BetaNormalize
  import Distinct
  import Outcomes
  import Fuel
  import Redefinition
  import Builtins
  import S = Source
  import D = Direct
  import Compiler
  import L = LazyMachine
  import R = Relation

  // ---------- one program in a session ----------

  /** `normalize` announces the variables that a program defines at the top level: they exist from
      now on, and hold nothing. */
  function Announced(h: S.Store, ds: seq<Name>): S.Store {
    h.(globals := h.globals + map x | x in ds :: None)
  }

  /** The variables that `normalize` announces for a program. */
  function TopDefs(e: Core): seq<Name> {
    Hoisted(Optimize(e), [])
  }

  lemma TopDefsAre(e: Core, x: Name)
    ensures x in TopDefs(e) <==> x in Defs(Optimize(e))
  {
    HoistedAre(Optimize(e), [], x);
  }

  /** Announcing variables that no direct variable lives in keeps the stores related. */
  lemma AnnounceRel(lv: Levels, w: World, s: D.Store, h: S.Store, ds: seq<Name>)
    requires Rel(lv, w, s, h) && forall x :: x in ds ==> !Used(w, s, None, x)
    ensures Rel(lv, w, s, Announced(h, ds)) && forall x :: x in ds ==> Has(Announced(h, ds), None, x)
  {
    var h1 := Announced(h, ds);
    Sharing.RelContents(lv, w, s, h);
    Sharing.RelNotShared(lv, w, s, h);
    hide Rel, ValRel;
    forall p: Option<nat>, x | p.Some? || x !in ds ensures ValueAt(h1, p, x) == ValueAt(h, p, x) {}
    forall g, x | 0 <= g < |s.frames| && x in s.frames[g].vars ensures VarOk(lv, w, s, h1, g, x) {
      assert VarOk(lv, w, s, h, g, x);
      Sharing.RelFrame(lv, w, s, h, g);
      assert UsedBy(w, s, Spot(w, g), x, g);
    }
    forall x | x in s.globals ensures GlobalOk(lv, w, s, h1, x) { assert GlobalOk(lv, w, s, h, x); }
    assert NoneEarly(lv, s, h1);
    Sharing.RelAgain(lv, w, s, h, s, h1);
  }

  /** A program may start: its binders fit, and no running code keeps a variable where it defines its own. */
  ghost predicate MayStart(lv: Levels, w: World, s: D.Store, h: S.Store, e: Core) {
    && Rel(lv, w, s, h) && Fits(lv, e, 0, true) && NoDup(Defs(Optimize(e)))
    && forall x, g :: x in Defs(Optimize(e)) ==> !UsedBy(w, s, None, x, g)
  }

  /** The optimized program in its top-level frame. */
  lemma ProgramEnters(lv: Levels, w: World, s: D.Store, h: S.Store, e: Core) returns (w2: World, h2: S.Store)
    requires MayStart(lv, w, s, h, e) && forall x :: x in Defs(Optimize(e)) ==> x !in s.globals
    ensures BetaNormalize.CanRun(lv, w2, s.(frames := s.frames + [D.TOP_FRAME]), h2, |s.frames|, e, true)
    ensures h2.globals == Announced(h, TopDefs(e)).globals && Spot(w2, |s.frames|) == None
    ensures forall n :: D.EvalProgram(e, s, n) == D.Eval(e, |s.frames|, s.(frames := s.frames + [D.TOP_FRAME]), n)
    ensures forall n :: Compiler.EvalProgram(Normalize(Optimize(e)), Announced(h, TopDefs(e)), n)
                     == S.Eval(Normalize(Optimize(e)), Home(w2, |s.frames|), h2, n)
  {
    hide *;
    MayStartParts(lv, w, s, h, e);
    var ds := Defs(Optimize(e));
    forall x ensures x in TopDefs(e) <==> x in ds { TopDefsAre(e, x); }
    var h0 := Announced(h, TopDefs(e));
    AnnounceRel(lv, w, s, h, TopDefs(e));
    w2 := Frames.TopWorld(w, h0);
    var s2 := s.(frames := s.frames + [D.TOP_FRAME]);
    h2 := h0.(frames := h0.frames + [Compiler.TOP_FRAME]);
    TopFrames();
    Frames.RelSizes(lv, w, s, h0);
    Frames.AddTop(lv, w, s, h0, Compiler.TOP_FRAME);
    TopHome(w, h0, |s.frames|);
    TopReady(w, s, h0, w2, s2, h2, ds);
    CanRunTop(lv, w2, s2, h2, |s.frames|, e);
    forall n ensures D.EvalProgram(e, s, n) == D.Eval(e, |s.frames|, s2, n) { DirectUnfold(e, s, n); }
    forall n
      ensures Compiler.EvalProgram(Normalize(Optimize(e)), h0, n)
        == S.Eval(Normalize(Optimize(e)), Home(w2, |s.frames|), h2, n)
    {
      Compiler.EvalProgramUnfold(Normalize(Optimize(e)), h0, n);
    }
  }

  lemma MayStartParts(lv: Levels, w: World, s: D.Store, h: S.Store, e: Core)
    requires MayStart(lv, w, s, h, e)
    ensures Rel(lv, w, s, h) && Fits(lv, e, 0, true) && NoDup(Defs(Optimize(e)))
    ensures forall x :: x in Defs(Optimize(e)) && x !in s.globals ==> !Used(w, s, None, x)
  {
    hide UsedBy, Rel, Fits, Optimize, Defs;
  }

  /** `optimize_beta` followed by `normalize` preserves what a program computes and leaves behind,
      so that the next program of the session can be run in it. */
  lemma ProgramPreserved(lv: Levels, w: World, s: D.Store, h: S.Store, e: Core, n: nat)
    returns (w1: World, h1: S.Store, y: S.SVal)
    requires MayStart(lv, w, s, h, e) && forall x :: x in Defs(Optimize(e)) ==> x !in s.globals
    requires D.EvalProgram(e, s, n).Ok?
    ensures Compiler.EvalProgram(Normalize(Optimize(e)), Announced(h, TopDefs(e)), n) == S.Ok(y, h1)
    ensures Rel(lv, w1, D.EvalProgram(e, s, n).s, h1) && ValRel(lv, w1, D.EvalProgram(e, s, n).v, y)
  {
    hide *;
    var w2, h2 := ProgramEnters(lv, w, s, h, e);
    var s2 := s.(frames := s.frames + [D.TOP_FRAME]);
    w1, h1, y := BetaNormalize.Sim(lv, w2, s2, h2, |s.frames|, e, true, n, n);
    var Ok(v, s1) := D.Eval(e, |s.frames|, s2, n);
    BetaNormalize.EndsParts(lv, w2, s2, h2, Spot(w2, |s.frames|), Defs(Optimize(e)), v, s1, w1, h1, y);
  }

  /** Errors are preserved too, except for the use of a local variable, and the assignment to a variable that the
      program defines at the top level, before it has a value. */
  lemma ErrorsPreserved(lv: Levels, w: World, s: D.Store, h: S.Store, e: Core, n: nat)
    requires MayStart(lv, w, s, h, e) && forall x :: x in Defs(Optimize(e)) ==> x !in s.globals
    requires Outcomes.Bad(lv, Announced(h, TopDefs(e)), D.EvalProgram(e, s, n))
    ensures Compiler.EvalProgram(Normalize(Optimize(e)), Announced(h, TopDefs(e)), n) == S.Error
  {
    hide *;
    var w2, h2 := ProgramEnters(lv, w, s, h, e);
    StillBad(lv, Announced(h, TopDefs(e)), h2, D.EvalProgram(e, s, n));
    Outcomes.Faults(lv, w2, s.(frames := s.frames + [D.TOP_FRAME]), h2, |s.frames|, e, true, n, n);
  }

  lemma StillBad(lv: Levels, h: S.Store, h1: S.Store, o: D.Outcome)
    requires Outcomes.Bad(lv, h, o) && h1.globals == h.globals
    ensures Outcomes.Bad(lv, h1, o)
  {
  }

  /** A program that never comes to an end does not come to an end after the two passes either. */
  lemma DivergencePreserved(lv: Levels, w: World, s: D.Store, h: S.Store, e: Core, m: nat)
    requires MayStart(lv, w, s, h, e) && forall x :: x in Defs(Optimize(e)) ==> x !in s.globals
    requires forall n: nat :: D.EvalProgram(e, s, n).Timeout?
    ensures Compiler.EvalProgram(Normalize(Optimize(e)), Announced(h, TopDefs(e)), m).Timeout?
  {
    hide *;
    var w2, h2 := ProgramEnters(lv, w, s, h, e);
    if !Compiler.EvalProgram(Normalize(Optimize(e)), Announced(h, TopDefs(e)), m).Timeout? {
      var n := Outcomes.Settles(lv, w2, s.(frames := s.frames + [D.TOP_FRAME]), h2, |s.frames|, e, true, m);
      assert false;
    }
  }

  lemma TopFrames()
    ensures D.TOP_FRAME == D.Frame(map[], None) && Compiler.TOP_FRAME == S.Frame([], [], None)
  {
  }

  lemma TopHome(w: World, h: S.Store, g: nat)
    requires |w.phi| == g && |w.lev| == |h.frames|
    ensures Home(Frames.TopWorld(w, h), g) == |h.frames| && Depth(Frames.TopWorld(w, h), g) == 0
    ensures Spot(Frames.TopWorld(w, h), g) == None
  {
  }

  lemma TopReady(w: World, s: D.Store, h: S.Store, w1: World, s1: D.Store, h1: S.Store, ds: seq<Name>)
    requires Grow(w, s, h, w1, s1, h1, None, []) && NoDup(ds)
    requires forall x :: x in ds ==> Has(h, None, x) && !Used(w, s, None, x)
    ensures Ready(w1, s1, h1, None, ds)
  {
    hide Has, Used, ValueAt;
  }

  lemma CanRunTop(lv: Levels, w: World, s: D.Store, h: S.Store, g: nat, e: Core)
    requires Rel(lv, w, s, h) && g < |s.frames| && s.frames[g].up == None && Depth(w, g) == 0 && Spot(w, g) == None
    requires Fits(lv, e, 0, true) && Ready(w, s, h, None, Defs(Optimize(e)))
    ensures BetaNormalize.CanRun(lv, w, s, h, g, e, true)
  {
  }

  lemma DirectUnfold(e: Core, s: D.Store, n: nat)
    ensures D.EvalProgram(e, s, n) == D.Eval(e, |s.frames|, s.(frames := s.frames + [D.TOP_FRAME]), n)
  {
    hide D.Eval;
  }

  // ---------- defining variables again ----------

  /** Forgetting values on one side, and announcing the variables on the other. */
  lemma RelForget(lv: Levels, w: World, s: D.Store, h: S.Store, xs: seq<Name>)
    requires Rel(lv, w, s, h) && forall x, g :: x in xs ==> !UsedBy(w, s, None, x, g)
    ensures Rel(lv, w, Redefinition.Forget(s, xs), Announced(h, xs))
  {
    var s1, h1 := Redefinition.Forget(s, xs), Announced(h, xs);
    Sharing.RelContents(lv, w, s, h);
    Sharing.RelNotShared(lv, w, s, h);
    hide Rel, ValRel;
    forall p: Option<nat>, x | p.Some? || x !in xs ensures ValueAt(h1, p, x) == ValueAt(h, p, x) {}
    forall g, x | 0 <= g < |s.frames| && x in s.frames[g].vars ensures VarOk(lv, w, s1, h1, g, x) {
      assert VarOk(lv, w, s, h, g, x);
      Sharing.RelFrame(lv, w, s, h, g);
      assert UsedBy(w, s, Spot(w, g), x, g);
    }
    forall x | x in s1.globals ensures GlobalOk(lv, w, s1, h1, x) { assert GlobalOk(lv, w, s, h, x); }
    forall p, x, g | UsedBy(w, s1, p, x, g) ensures UsedBy(w, s, p, x, g) {}
    assert NoneEarly(lv, s1, h1);
    Sharing.RelAgain(lv, w, s, h, s1, h1);
  }

  lemma StartForget(lv: Levels, w: World, s: D.Store, h: S.Store, e: Core)
    requires MayStart(lv, w, s, h, e)
    ensures MayStart(lv, w, Redefinition.Forget(s, TopDefs(e)), Announced(h, TopDefs(e)), e)
    ensures forall x :: x in Defs(Optimize(e)) ==> x !in Redefinition.Forget(s, TopDefs(e)).globals
    ensures Announced(Announced(h, TopDefs(e)), TopDefs(e)) == Announced(h, TopDefs(e))
  {
    hide Rel, Fits, Optimize, Defs, TopDefs;
    forall x ensures x in TopDefs(e) <==> x in Defs(Optimize(e)) { TopDefsAre(e, x); }
    RelForget(lv, w, s, h, TopDefs(e));
    forall x, g | x in Defs(Optimize(e)) ensures !UsedBy(w, Redefinition.Forget(s, TopDefs(e)), None, x, g) {
      assert !UsedBy(w, s, None, x, g);
    }
    assert Announced(Announced(h, TopDefs(e)), TopDefs(e)).globals == Announced(h, TopDefs(e)).globals;
  }

  /** What the two passes make of a program that defines variables of the session again: the program, run in
      a memory where these variables have no value. */
  lemma ProgramForgets(lv: Levels, w: World, s: D.Store, h: S.Store, e: Core, n: nat)
    returns (w1: World, h1: S.Store, y: S.SVal)
    requires MayStart(lv, w, s, h, e) && D.EvalProgram(e, Redefinition.Forget(s, TopDefs(e)), n).Ok?
    ensures Compiler.EvalProgram(Normalize(Optimize(e)), Announced(h, TopDefs(e)), n) == S.Ok(y, h1)
    ensures Rel(lv, w1, D.EvalProgram(e, Redefinition.Forget(s, TopDefs(e)), n).s, h1)
    ensures ValRel(lv, w1, D.EvalProgram(e, Redefinition.Forget(s, TopDefs(e)), n).v, y)
  {
    hide *;
    StartForget(lv, w, s, h, e);
    w1, h1, y := ProgramPreserved(lv, w, Redefinition.Forget(s, TopDefs(e)), Announced(h, TopDefs(e)), e, n);
  }

  /** In particular, reading such a variable before its new definition is an error. */
  lemma ForgottenFails(lv: Levels, w: World, s: D.Store, h: S.Store, e: Core, n: nat)
    requires MayStart(lv, w, s, h, e)
    requires Outcomes.Bad(lv, Announced(h, TopDefs(e)), D.EvalProgram(e, Redefinition.Forget(s, TopDefs(e)), n))
    ensures Compiler.EvalProgram(Normalize(Optimize(e)), Announced(h, TopDefs(e)), n) == S.Error
  {
    hide *;
    StartForget(lv, w, s, h, e);
    ErrorsPreserved(lv, w, Redefinition.Forget(s, TopDefs(e)), Announced(h, TopDefs(e)), e, n);
  }

  /** A program that defines its variables, each before it is used, is preserved whether they had values in
      the session or not. */
  lemma RedefinitionPreserved(lv: Levels, w: World, s: D.Store, h: S.Store, e: Core, n: nat)
    returns (w1: World, h1: S.Store, y: S.SVal)
    requires MayStart(lv, w, s, h, e) && D.EvalProgram(e, s, n).Ok?
    requires Redefinition.DefinedFirst(e, set x | x in TopDefs(e))
      && Redefinition.Left(e, set x | x in TopDefs(e)) == {}
    ensures Compiler.EvalProgram(Normalize(Optimize(e)), Announced(h, TopDefs(e)), n) == S.Ok(y, h1)
    ensures Rel(lv, w1, D.EvalProgram(e, s, n).s, h1) && ValRel(lv, w1, D.EvalProgram(e, s, n).v, y)
  {
    hide *;
    Redefinition.ForgetUnnoticed(e, s, TopDefs(e), n);
    w1, h1, y := ProgramForgets(lv, w, s, h, e, n);
  }

  /** In particular a variable can be given a new procedure, or a constant. */
  lemma DefineAgain(x: Name, e: Core)
    requires e.CLambda? || e.CQuote?
    ensures TopDefs(CDefine(x, e)) == [x]
    ensures Redefinition.DefinedFirst(CDefine(x, e), {x}) && Redefinition.Left(CDefine(x, e), {x}) == {}
  {
    assert Optimize(CDefine(x, e)) == CDefine(x, Optimize(e));
    assert Hoisted(CDefine(x, Optimize(e)), []) == Hoisted(Optimize(e), [x] + []);
  }

  /** So the value of a variable is lost before its new one is computed from it. */
  lemma RedefinitionFails(x: Name, s: D.Store, h: S.Store, n: nat)
    requires x in s.globals
    ensures D.EvalProgram(CDefine(x, CVar(x)), s, n).Ok?
    ensures Compiler.EvalProgram(Normalize(Optimize(CDefine(x, CVar(x)))), Announced(h, TopDefs(CDefine(x, CVar(x)))),
                                 n) == S.Error
  {
    var e := CDefine(x, CVar(x));
    var s1 := s.(frames := s.frames + [D.TOP_FRAME]);
    assert D.Find(s1.frames, |s.frames|, x) == None;
    assert D.Lookup(s1, |s.frames|, x) == Some(s.globals[x]);
    assert D.Eval(CVar(x), |s.frames|, s1, n) == D.Ok(s.globals[x], s1);
    assert D.Eval(e, |s.frames|, s1, n).Ok?;
    TopDefsAre(e, x);
    assert Defs(Optimize(e)) == [x] + [];
    var h0 := Announced(h, TopDefs(e));
    var h1 := h0.(frames := h0.frames + [Compiler.TOP_FRAME]);
    assert S.FindFrame(h1.frames, |h0.frames|, x) == None;
    assert S.Lookup(h1, |h0.frames|, x) == None;
    assert S.Eval(Var(x), |h0.frames|, h1, n) == S.Error;
  }

  // ---------- a program of its own ----------

  /** The memories in which only native procedures are defined. */
  function DirectStart(g: map<Name, Prim>): D.Store {
    D.Store([], map x | x in g :: Builtin(g[x]))
  }

  function SourceStart(g: map<Name, Prim>): S.Store {
    S.Store([], map x | x in g :: Some(Builtin(g[x])))
  }

  function MachineStart(g: map<Name, Prim>, ds: seq<Name>): map<Name, Option<L.VVal>> {
    (map x | x in g :: Some(Builtin(g[x]))) + map x | x in ds :: None
  }

  lemma StartRel(lv: Levels, g: map<Name, Prim>)
    requires forall x :: x in g ==> x !in lv
    ensures Rel(lv, World([], []), DirectStart(g), SourceStart(g))
    ensures forall x :: x !in g ==> !Used(World([], []), DirectStart(g), None, x)
  {
    forall x | x in g ensures GlobalOk(lv, World([], []), DirectStart(g), SourceStart(g), x) {}
  }

  lemma {:induction false} DatumRel(lv: Levels, w: World, d: Datum, y: S.SVal)
    requires ValRel(lv, w, Inject(d), y)
    ensures y == Inject(d)
    decreases d
  {
    hide Fits;
    if d.DPair? {
      DatumRel(lv, w, d.car, y.car);
      DatumRel(lv, w, d.cdr, y.cdr);
    }
  }

  /** Every program with pairwise distinct binders that are not names of native procedures means
      the same before and after the two passes: the same data, and related procedures. */
  lemma OptimizeCorrect(e: Core, g: map<Name, Prim>, n: nat) returns (y: S.SVal, h1: S.Store)
    requires NoDup(Distinct.Binders(e)) && forall x :: x in Distinct.Binders(e) ==> x !in g
    requires D.EvalProgram(e, DirectStart(g), n).Ok?
    ensures Compiler.EvalProgram(Normalize(Optimize(e)), Announced(SourceStart(g), TopDefs(e)), n) == S.Ok(y, h1)
    ensures exists w :: Rel(Distinct.LevelsOf(e, 0, true), w, D.EvalProgram(e, DirectStart(g), n).s, h1)
                     && ValRel(Distinct.LevelsOf(e, 0, true), w, D.EvalProgram(e, DirectStart(g), n).v, y)
    ensures forall d :: D.EvalProgram(e, DirectStart(g), n).v == Inject(d) ==> y == Inject(d)
  {
    hide *;
    var lv := Distinct.LevelsOf(e, 0, true);
    StartMay(e, g);
    var w1;
    w1, h1, y := ProgramPreserved(lv, World([], []), DirectStart(g), SourceStart(g), e, n);
    forall d | D.EvalProgram(e, DirectStart(g), n).v == Inject(d) ensures y == Inject(d) { DatumRel(lv, w1, d, y); }
  }

  lemma StartMay(e: Core, g: map<Name, Prim>)
    requires NoDup(Distinct.Binders(e)) && forall x :: x in Distinct.Binders(e) ==> x !in g
    ensures MayStart(Distinct.LevelsOf(e, 0, true), World([], []), DirectStart(g), SourceStart(g), e)
    ensures forall x :: x in Defs(Optimize(e)) ==> x !in DirectStart(g).globals
    ensures forall x :: x in Distinct.LevelsOf(e, 0, true) || x in TopDefs(e) ==> x in Distinct.Binders(e)
  {
    hide Rel, Fits, Distinct.LevelsOf, Distinct.Binders, Optimize, Defs, TopDefs;
    Distinct.DistinctProgram(e);
    StartRel(Distinct.LevelsOf(e, 0, true), g);
    forall x | x in TopDefs(e) ensures x in Defs(Optimize(e)) { TopDefsAre(e, x); }
  }

  /** The variables that a program binds in lambdas and defines in their bodies. */
  function Locals(e: Core): set<Name> {
    Distinct.LevelsOf(e, 0, true).Keys
  }

  /** These are the binders of the program but for its top-level definitions. */
  lemma LocalsAre(e: Core, x: Name)
    requires NoDup(Distinct.Binders(e))
    ensures x in Locals(e) <==> x in Distinct.Binders(e) && x !in Defs(e)
  {
    hide Distinct.LevelsOf, Distinct.Binders, Defs;
    Distinct.LocalBinders(e, 0, true);
    assert x in Distinct.Set(Distinct.Binders(e)) <==> x in Locals(e) || x in Distinct.Set(Defs(e));
  }

  /** Failing otherwise than by the use of a local variable, or the assignment to one of the program's own
      top-level variables, without a value. */
  predicate Fails(e: Core, o: D.Outcome) {
    o.Error? || (o.Unbound? && o.x !in Locals(e) && (o.write ==> o.x !in TopDefs(e)))
  }

  /** Such errors of a program are errors after the two passes. */
  lemma ErrorsCorrect(e: Core, g: map<Name, Prim>, n: nat)
    requires NoDup(Distinct.Binders(e)) && forall x :: x in Distinct.Binders(e) ==> x !in g
    requires Fails(e, D.EvalProgram(e, DirectStart(g), n))
    ensures Compiler.EvalProgram(Normalize(Optimize(e)), Announced(SourceStart(g), TopDefs(e)), n) == S.Error
  {
    hide Rel, Fits, Distinct.LevelsOf, Distinct.Binders, Optimize, Defs, TopDefs, D.Eval, MayStart, Normalize,
      Compiler.EvalProgram;
    StartMay(e, g);
    var o := D.EvalProgram(e, DirectStart(g), n);
    if o.Unbound? && o.x in g {
      DirectUnfold(e, DirectStart(g), n);
      Fuel.GlobalsStay(e, 0, DirectStart(g).(frames := DirectStart(g).frames + [D.TOP_FRAME]), n, o.x);
    }
    ErrorsPreserved(Distinct.LevelsOf(e, 0, true), World([], []), DirectStart(g), SourceStart(g), e, n);
  }

  /** Endless programs stay endless. */
  lemma DivergenceCorrect(e: Core, g: map<Name, Prim>, m: nat)
    requires NoDup(Distinct.Binders(e)) && forall x :: x in Distinct.Binders(e) ==> x !in g
    requires forall n: nat :: D.EvalProgram(e, DirectStart(g), n).Timeout?
    ensures Compiler.EvalProgram(Normalize(Optimize(e)), Announced(SourceStart(g), TopDefs(e)), m).Timeout?
  {
    hide *;
    StartMay(e, g);
    DivergencePreserved(Distinct.LevelsOf(e, 0, true), World([], []), DirectStart(g), SourceStart(g), e, m);
  }

  lemma StartIdle(g: map<Name, Prim>, ds: seq<Name>)
    requires forall x :: Builtins.InlineName(x).Some? ==> x in g && x !in ds && g[x] == Builtins.InlineName(x).value
    ensures Compiler.Idle(R.World(map[], []), Announced(SourceStart(g), ds), [], MachineStart(g, ds))
  {
    hide Compiler.Idle;
    StartGlobals(g, ds);
    Compiler.InitiallyIdle(Announced(SourceStart(g), ds), MachineStart(g, ds));
  }

  lemma StartGlobals(g: map<Name, Prim>, ds: seq<Name>)
    requires forall x :: Builtins.InlineName(x).Some? ==> x in g && x !in ds && g[x] == Builtins.InlineName(x).value
    ensures R.GlobalsRel(R.World(map[], []), Announced(SourceStart(g), ds).globals, MachineStart(g, ds))
  {
    hide Builtins.InlineName;
    var a, m := Announced(SourceStart(g), ds).globals, MachineStart(g, ds);
    forall x ensures (x in a <==> x in g || x in ds) && (x in m <==> x in g || x in ds) {}
    forall x | x in a
      ensures a[x].Some? == m[x].Some? && (a[x].Some? ==> R.ValRel(R.World(map[], []), a[x].value, m[x].value))
    {
    }
  }

  /** From expanded code to the machine: when evaluating the program as written gives a datum, the
      machine with lazily made contexts halts with that datum on the compiled program. */
  lemma PipelineCorrect(e: Core, ir: Irep, g: map<Name, Prim>, n: nat, d: Datum) returns (k: nat, last: L.State)
    requires NoDup(Distinct.Binders(e)) && forall x :: x in Distinct.Binders(e) ==> x !in g
    requires forall x :: Builtins.InlineName(x).Some? ==> x in g && g[x] == Builtins.InlineName(x).value
    requires Compiler.Compile(Normalize(Optimize(e))) == Some(ir)
    requires D.EvalProgram(e, DirectStart(g), n).Ok? && D.EvalProgram(e, DirectStart(g), n).v == Inject(d)
    ensures L.Run(Compiler.Boot(ir, [], MachineStart(g, TopDefs(e))), k) == L.Next(last)
      && L.Step(last) == L.Halt(Inject(d))
  {
    hide *;
    var y, h1 := OptimizeCorrect(e, g, n);
    Distinct.DistinctProgram(e);
    forall x | x in TopDefs(e) ensures x !in g { TopDefsAre(e, x); }
    StartIdle(g, TopDefs(e));
    var w, s := R.World(map[], []), Announced(SourceStart(g), TopDefs(e));
    var w1, x;
    k, w1, x, last := Compiler.CompilerCorrect(Normalize(Optimize(e)), ir, w, s, [], MachineStart(g, TopDefs(e)), n);
    FinishedHalts(w, y, h1, Compiler.Boot(ir, [], MachineStart(g, TopDefs(e))), k, w1, x, last, d);
  }

  /** When evaluating the program as written fails, the machine faults, unless it fails for using a local variable,
      or assigning a top-level variable of its own, too early. */
  lemma PipelineFaults(e: Core, ir: Irep, g: map<Name, Prim>, n: nat) returns (k: nat)
    requires NoDup(Distinct.Binders(e)) && forall x :: x in Distinct.Binders(e) ==> x !in g
    requires forall x :: Builtins.InlineName(x).Some? ==> x in g && g[x] == Builtins.InlineName(x).value
    requires Compiler.Compile(Normalize(Optimize(e))) == Some(ir)
    requires Fails(e, D.EvalProgram(e, DirectStart(g), n))
    ensures L.Run(Compiler.Boot(ir, [], MachineStart(g, TopDefs(e))), k) == L.Fault
  {
    hide *;
    ErrorsCorrect(e, g, n);
    StartMay(e, g);
    StartIdle(g, TopDefs(e));
    var w, s := R.World(map[], []), Announced(SourceStart(g), TopDefs(e));
    var w1, x, last;
    k, w1, x, last := Compiler.CompilerCorrect(Normalize(Optimize(e)), ir, w, s, [], MachineStart(g, TopDefs(e)), n);
  }

  /** When evaluating the program as written never ends, the machine runs for ever. */
  lemma PipelineEndless(e: Core, ir: Irep, g: map<Name, Prim>, k: nat)
    requires NoDup(Distinct.Binders(e)) && forall x :: x in Distinct.Binders(e) ==> x !in g
    requires forall x :: Builtins.InlineName(x).Some? ==> x in g && g[x] == Builtins.InlineName(x).value
    requires Compiler.Compile(Normalize(Optimize(e))) == Some(ir)
    requires forall n: nat :: D.EvalProgram(e, DirectStart(g), n).Timeout?
    ensures L.Run(Compiler.Boot(ir, [], MachineStart(g, TopDefs(e))), k).Next?
  {
    hide *;
    StartMay(e, g);
    StartIdle(g, TopDefs(e));
    var w, s := R.World(map[], []), Announced(SourceStart(g), TopDefs(e));
    forall m: nat ensures Compiler.EvalProgram(Normalize(Optimize(e)), s, m).Timeout? { DivergenceCorrect(e, g, m); }
    Compiler.Diverges(Normalize(Optimize(e)), ir, w, s, [], MachineStart(g, TopDefs(e)), k);
  }

  lemma FinishedHalts(w: R.World, v: S.SVal, s1: S.Store, start: L.State, n: nat, w1: R.World, x: L.VVal,
                      last: L.State, d: Datum)
    requires Compiler.Finished(w, v, s1, start, n, w1, x, last) && v == Inject(d)
    ensures L.Run(start, n) == L.Next(last) && L.Step(last) == L.Halt(Inject(d))
  {
    hide L.Run, L.Step, R.ValRel, Compiler.Idle;
    Compiler.DataRel(w1, d, x);
  }
}
